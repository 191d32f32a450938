/** Why jobs end, and what a job in a slot says about its board: over every run. */
module Causes {
  import opened Strings
  import opened FleetModel
  import opened FleetRun
  import opened Enqueueing
  import opened Slots
  import opened Ledger
  import opened Views
  import opened HeartbeatLaws
  import opened TickLaws
  import opened QueueLaws

  // ----- why jobs end ------------------------------------------------------------------------

  predicate Accepts(tools: ExamTools, s: FleetState, op: Op)
    requires op.Enqueue?
  {
    EnqueueOp(tools, s, op.hosts, op.kind, op.examId, op.now, op.wallMs).1.Ok?
  }

  /** The action is accepted for the board. */
  predicate Takes(tools: ExamTools, s: FleetState, op: Op, host: string)
    requires op.Enqueue?
  {
    Accepts(tools, s, op) && Named(op.hosts, s.maxBoards, host) && CanTake(s, host, op.kind, op.now)
  }

  predicate HeardFrom(op: Op, host: string) {
    op.Heartbeat? && op.hb.host == host && ValidHost(host)
  }

  /** What ends the job in a slot in this way. */
  predicate Cause(tools: ExamTools, s: FleetState, op: Op, host: string, ending: Ending) {
    && Slot(s, host).Some?
    && var job := Slot(s, host).value;
       match ending
       case Failed => HeardFrom(op, host) && Failing(s, op.hb)
       case Finished => HeardFrom(op, host) && !Failing(s, op.hb) && (StartShown(s, op.hb) || StopShown(s, op.hb))
       case Expired => op.Tick? && job.pickedUpAt.None? && Overdue(job, op.now)
       case TimedOut => op.Tick? && job.pickedUpAt.Some? && Overdue(job, op.now)
       case Cancelled => op.Enqueue? && Takes(tools, s, op, host) && OnlyCancels(s, host, op.kind)
       case Superseded => op.Enqueue? && Takes(tools, s, op, host) && !OnlyCancels(s, host, op.kind)
       case Forgotten => op.Forget? && op.host == host
       case LostAtRestart => op.Restart?
  }

  lemma EndingHasCause(tools: ExamTools, s: FleetState, op: Op, host: string, ending: Ending)
    ensures EndingAt(tools, s, op, host) == Some(ending) <==> Cause(tools, s, op, host, ending)
  {
    if op.Enqueue? {
      FirstAreNamed(op.hosts, s.maxBoards, host);
      VerdictIs(s, host, op.kind, op.now);
    }
  }

  /** The entry's step found the job in the slot, and ended it in this way. */
  predicate HadCause(tools: ExamTools, s: FleetState, ops: seq<Op>, e: Entry) {
    && e.step < |ops|
    && HoldsId(Run(tools, s, ops[..e.step]), e.host, e.id)
    && Cause(tools, Run(tools, s, ops[..e.step]), ops[e.step], e.host, e.ending)
  }

  /** The endings on record are exactly those that had a cause. */
  lemma {:induction false} EndingsHaveCauses(tools: ExamTools, s: FleetState, ops: seq<Op>, e: Entry)
    ensures e in Endings(tools, s, ops) <==> HadCause(tools, s, ops, e)
  {
    if ops == [] {
    } else {
      var n := |ops| - 1;
      EndingsHaveCauses(tools, s, ops[..n], e);
      EndedNow(tools, Run(tools, s, ops[..n]), ops[n], n, e);
      LastOrEarlier(tools, s, ops, e);
    }
  }

  lemma LastOrEarlier(tools: ExamTools, s: FleetState, ops: seq<Op>, e: Entry)
    requires ops != []
    ensures
      var n := |ops| - 1;
      HadCause(tools, s, ops, e) <==>
        || HadCause(tools, s, ops[..n], e)
        || (e.step == n && HoldsId(Run(tools, s, ops[..n]), e.host, e.id)
            && Cause(tools, Run(tools, s, ops[..n]), ops[n], e.host, e.ending))
  {
    if e.step < |ops| - 1 {
      assert ops[..|ops| - 1][..e.step] == ops[..e.step];
    }
  }

  lemma EndedNow(tools: ExamTools, s: FleetState, op: Op, step: nat, e: Entry)
    ensures e in EndedBy(tools, s, op, step)
       <==> e.step == step && HoldsId(s, e.host, e.id) && Cause(tools, s, op, e.host, e.ending)
  {
    EndingHasCause(tools, s, op, e.host, e.ending);
  }

  /** An ending by time happened at a tick past the job's time; only a job that was handed out leaves a problem. */
  lemma TimeEndsJobs(tools: ExamTools, s: FleetState, ops: seq<Op>, e: Entry)
    requires e in Endings(tools, s, ops) && (e.ending.Expired? || e.ending.TimedOut?)
    ensures e.step < |ops| && ops[e.step].Tick?
    ensures
      var u, now := Run(tools, s, ops[..e.step]), ops[e.step].now;
      var after := Apply(tools, u, ops[e.step]);
      && HoldsId(u, e.host, e.id)
      && var job := Slot(u, e.host).value;
         if e.ending.Expired? then
           && job.pickedUpAt.None? && now > job.queuedAt + 60 * SECOND
           && ErrorOf(after, e.host) == ErrorOf(u, e.host)
         else
           && job.pickedUpAt.Some?
           && match job.kind
              case Start => now > job.pickedUpAt.value + 90 * SECOND && ErrorOf(after, e.host) == Some(StartTimeout)
              case Stop => now > job.pickedUpAt.value + 45 * SECOND && ErrorOf(after, e.host) == Some(StopTimeout)
  {
    EndingsHaveCauses(tools, s, ops, e);
    var u, op := Run(tools, s, ops[..e.step]), ops[e.step];
    TickOutcome(tools, u, op.now, op.wallMs, e.host);
  }

  // ----- what a job says about its board ---------------------------------------------------------

  /** A start waits for a board that does not run, with an exam to run; a stop that was handed out, without one, is
      on a board that runs, or that has not been heard since. */
  predicate JobFits(s: FleetState, host: string) {
    Slot(s, host).Some? ==>
      var job, live := Slot(s, host).value, LiveOf(s, host).value;
      match job.kind
      case Start => !RunningAt(s, host) && job.exam.Some?
      case Stop =>
        job.exam.None? && (job.pickedUpAt.Some? ==> RunningAt(s, host) || job.pickedUpAt == Some(live.lastSeen))
  }

  lemma HeartbeatFits(s: FleetState, hb: Heartbeat, now: nat, wallMs: int)
    requires Admitted(s, hb) && JobFits(s, hb.host)
    ensures JobFits(HeartbeatOp(s, hb, now, wallMs).0, hb.host)
  {
    if Failing(s, hb) || StartShown(s, hb) || StopShown(s, hb) || (Slot(s, hb.host).None? && Ceased(s, hb)) {
      SlotEmptied(s, hb, now, wallMs);
    } else {
      KeptFits(s, hb, now, wallMs);
    }
  }

  lemma SlotEmptied(s: FleetState, hb: Heartbeat, now: nat, wallMs: int)
    requires Admitted(s, hb)
    requires Failing(s, hb) || StartShown(s, hb) || StopShown(s, hb) || (Slot(s, hb.host).None? && Ceased(s, hb))
    ensures Slot(HeartbeatOp(s, hb, now, wallMs).0, hb.host).None?
  {
    if Failing(s, hb) {
      FailureEnds(s, hb, now, wallMs);
    } else if StartShown(s, hb) {
      StartEnds(s, hb, now, wallMs);
    } else if StopShown(s, hb) {
      StopEnds(s, hb, now, wallMs);
    } else {
      SessionEnds(s, hb, now, wallMs);
    }
  }

  lemma KeptFits(s: FleetState, hb: Heartbeat, now: nat, wallMs: int)
    requires Admitted(s, hb) && JobFits(s, hb.host)
    requires !Failing(s, hb) && !StartShown(s, hb) && !StopShown(s, hb) && !(Slot(s, hb.host).None? && Ceased(s, hb))
    ensures JobFits(HeartbeatOp(s, hb, now, wallMs).0, hb.host)
  {
    NothingEnds(s, hb, now, wallMs);
    LiveFits(s, HeartbeatOp(s, hb, now, wallMs).0, hb, now);
  }

  lemma LiveFits(s: FleetState, t: FleetState, hb: Heartbeat, now: nat)
    requires JobFits(s, hb.host) && !StartShown(s, hb) && !StopShown(s, hb)
    requires LiveOf(t, hb.host).Some? && LiveOf(t, hb.host).value.hb == hb && LiveOf(t, hb.host).value.lastSeen == now
    requires
      var job := Slot(s, hb.host);
      Slot(t, hb.host) == if job.Some? && job.value.pickedUpAt.None? then Some(job.value.(pickedUpAt := Some(now)))
                          else job
    ensures JobFits(t, hb.host)
  {
  }

  lemma HeardFits(tools: ExamTools, s: FleetState, op: Op, host: string)
    requires op.Heartbeat? && JobFits(s, host)
    ensures JobFits(Apply(tools, s, op), host)
  {
    HeartbeatBoards(s, op.hb, op.now, op.wallMs);
    if op.hb.host == host && Admitted(s, op.hb) {
      HeartbeatFits(s, op.hb, op.now, op.wallMs);
    } else {
      SameLiveFits(s, Apply(tools, s, op), host);
    }
  }

  lemma SameLiveFits(s: FleetState, t: FleetState, host: string)
    requires JobFits(s, host) && LiveOf(t, host) == LiveOf(s, host)
    ensures JobFits(t, host)
  {
  }

  lemma TickFits(tools: ExamTools, s: FleetState, op: Op, host: string)
    requires op.Tick? && JobFits(s, host)
    ensures JobFits(Apply(tools, s, op), host)
  {
    TickOutcome(tools, s, op.now, op.wallMs, host);
  }

  lemma EnqueueFits(tools: ExamTools, s: FleetState, op: Op, host: string)
    requires op.Enqueue? && JobFits(s, host)
    ensures JobFits(Apply(tools, s, op), host)
  {
    if Accepts(tools, s, op) {
      var exam := ActionOutcome(tools, s, op.hosts, op.kind, op.examId, op.now, op.wallMs, host);
      if !Takes(tools, s, op, host) {
        SameLiveFits(s, Apply(tools, s, op), host);
      }
    } else {
      ActionEffect(tools, s, op.hosts, op.kind, op.examId, op.now, op.wallMs);
    }
  }

  lemma QuietFits(tools: ExamTools, s: FleetState, op: Op, host: string)
    requires !op.Heartbeat? && !op.Tick? && !op.Enqueue? && JobFits(s, host)
    ensures JobFits(Apply(tools, s, op), host)
  {
    if op.Restart? {
      LoadedBoardsAreSilent(TakeSnapshot(s).boards);
    } else if !op.Forget? {
      QuietKeepsLives(tools, s, op);
      SameLiveFits(s, Apply(tools, s, op), host);
    }
  }

  /** In every run, a job in a slot fits what its board said last; in particular no start is ever queued on a board
      that runs. */
  lemma {:induction false} RunFits(tools: ExamTools, s: FleetState, ops: seq<Op>, host: string)
    requires JustStarted(s)
    ensures JobFits(Run(tools, s, ops), host)
  {
    if ops == [] {
    } else {
      var n := |ops| - 1;
      var u := Run(tools, s, ops[..n]);
      RunFits(tools, s, ops[..n], host);
      if ops[n].Heartbeat? {
        HeardFits(tools, u, ops[n], host);
      } else if ops[n].Tick? {
        TickFits(tools, u, ops[n], host);
      } else if ops[n].Enqueue? {
        EnqueueFits(tools, u, ops[n], host);
      } else {
        QuietFits(tools, u, ops[n], host);
      }
    }
  }
}
