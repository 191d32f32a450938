/** Every job ever issued is in exactly one slot or has exactly one ending. */
module Ledger {
  import opened Strings
  import opened FleetModel
  import opened FleetRun
  import opened Enqueueing
  import opened Slots

  /** One job that left its slot: at which step of the run, on which board, and how. */
  datatype Entry = Entry(step: nat, host: string, id: nat, ending: Ending)

  ghost function EndedBy(tools: ExamTools, s: FleetState, op: Op, step: nat): set<Entry> {
    set h | h in s.boards && EndingAt(tools, s, op, h).Some? ::
      Entry(step, h, Slot(s, h).value.id, EndingAt(tools, s, op, h).value)
  }

  /** All endings of a run. */
  ghost function Endings(tools: ExamTools, s: FleetState, ops: seq<Op>): set<Entry> {
    if ops == [] then {}
    else
      var n := |ops| - 1;
      Endings(tools, s, ops[..n]) + EndedBy(tools, Run(tools, s, ops[..n]), ops[n], n)
  }

  /** A server that has just started: no board heard from. */
  predicate JustStarted(s: FleetState) {
    s.nextJobId >= 1 && forall h | h in s.boards :: s.boards[h].live.None?
  }

  predicate HoldsId(s: FleetState, host: string, id: nat) {
    Slot(s, host).Some? && Slot(s, host).value.id == id
  }

  ghost predicate Held(s: FleetState, id: nat) {
    exists h :: HoldsId(s, h, id)
  }

  ghost predicate Ended(ended: set<Entry>, id: nat) {
    exists e :: e in ended && e.id == id
  }

  /** Slots hold ids issued since first, each in one slot only. */
  ghost predicate SlotsInOrder(s: FleetState, first: nat) {
    && s.nextJobId >= 1 && s.nextJobId >= first
    && (forall h | Slot(s, h).Some? :: first <= Slot(s, h).value.id < s.nextJobId)
    && (forall h, g | Slot(s, h).Some? && Slot(s, g).Some? && Slot(s, h).value.id == Slot(s, g).value.id :: h == g)
  }

  /** Each issued id is held or ended, never both, and ended at most once. */
  ghost predicate Accounted(s: FleetState, ended: set<Entry>, first: nat) {
    && SlotsInOrder(s, first)
    && (forall e | e in ended :: first <= e.id < s.nextJobId && !Held(s, e.id))
    && (forall e, f | e in ended && f in ended && e.id == f.id :: e == f)
    && (forall id: nat | first <= id < s.nextJobId :: Held(s, id) || Ended(ended, id))
  }

  /** Job conservation, for every run from a fresh start, clean restarts included. */
  lemma {:induction false} Conservation(tools: ExamTools, s: FleetState, ops: seq<Op>)
    requires JustStarted(s)
    ensures Accounted(Run(tools, s, ops), Endings(tools, s, ops), s.nextJobId)
  {
    if ops == [] {
    } else {
      var n := |ops| - 1;
      Conservation(tools, s, ops[..n]);
      Step(tools, Run(tools, s, ops[..n]), Endings(tools, s, ops[..n]), ops[n], n, s.nextJobId);
    }
  }

  lemma Step(tools: ExamTools, s: FleetState, ended: set<Entry>, op: Op, step: nat, first: nat)
    requires Accounted(s, ended, first)
    ensures Accounted(Apply(tools, s, op), ended + EndedBy(tools, s, op, step), first)
  {
    SlotsStayInOrder(tools, s, op, first);
    SlotStep(tools, s, op, "");
    forall e | e in ended ensures !Held(Apply(tools, s, op), e.id) {
      EndedStaysEnded(tools, s, op, first, e.id);
    }
    forall e | e in EndedBy(tools, s, op, step)
      ensures first <= e.id < s.nextJobId && Held(s, e.id) && !Held(Apply(tools, s, op), e.id)
    {
      assert HoldsId(s, e.host, e.id);
      EndingEmpties(tools, s, op, first, e.host);
    }
    EndsOnce(tools, s, op, step, first);
    forall id: nat | first <= id < Apply(tools, s, op).nextJobId
      ensures Held(Apply(tools, s, op), id) || Ended(ended + EndedBy(tools, s, op, step), id)
    {
      NoneIsLost(tools, s, ended, op, step, first, id);
    }
  }

  lemma EndsOnce(tools: ExamTools, s: FleetState, op: Op, step: nat, first: nat)
    requires SlotsInOrder(s, first)
    ensures
      var now := EndedBy(tools, s, op, step);
      forall e, f | e in now && f in now && e.id == f.id :: e == f
  {
  }

  lemma NoneIsLost(tools: ExamTools, s: FleetState, ended: set<Entry>, op: Op, step: nat, first: nat, id: nat)
    requires Accounted(s, ended, first)
    requires first <= id < Apply(tools, s, op).nextJobId
    ensures Held(Apply(tools, s, op), id) || Ended(ended + EndedBy(tools, s, op, step), id)
  {
    if id >= s.nextJobId {
      NewIdIsHeld(tools, s, op, id);
    } else if Held(s, id) {
      var h :| HoldsId(s, h, id);
      SlotStep(tools, s, op, h);
      if EndingAt(tools, s, op, h).Some? {
        assert Entry(step, h, id, EndingAt(tools, s, op, h).value) in EndedBy(tools, s, op, step);
      } else {
        assert HoldsId(Apply(tools, s, op), h, id);
      }
    } else {
      var e :| e in ended && e.id == id;
      assert e in ended + EndedBy(tools, s, op, step);
    }
  }

  /** A job found after an operation was there before, or has a new id. */
  lemma WasHeld(tools: ExamTools, s: FleetState, op: Op, h: string)
    requires s.nextJobId >= 1
    requires Slot(Apply(tools, s, op), h).Some?
    ensures
      var id := Slot(Apply(tools, s, op), h).value.id;
      || (HoldsId(s, h, id) && EndingAt(tools, s, op, h).None?)
      || (op.Enqueue? && s.nextJobId <= id && FreshJob(s, Apply(tools, s, op), h, op.kind, op.now))
  {
    SlotStep(tools, s, op, h);
  }

  lemma SlotsStayInOrder(tools: ExamTools, s: FleetState, op: Op, first: nat)
    requires SlotsInOrder(s, first)
    ensures SlotsInOrder(Apply(tools, s, op), first)
  {
    var t := Apply(tools, s, op);
    SlotStep(tools, s, op, "");
    forall h | Slot(t, h).Some? ensures first <= Slot(t, h).value.id < t.nextJobId {
      SlotStep(tools, s, op, h);
    }
    forall h, g | Slot(t, h).Some? && Slot(t, g).Some? && Slot(t, h).value.id == Slot(t, g).value.id ensures h == g {
      WasHeld(tools, s, op, h);
      WasHeld(tools, s, op, g);
      if op.Enqueue? {
        OneBoardPerNumber(tools, s, op.hosts, op.kind, op.examId, op.now, op.wallMs, h, g);
      }
    }
  }

  /** An issued id that is in no slot never comes back. */
  lemma EndedStaysEnded(tools: ExamTools, s: FleetState, op: Op, first: nat, id: nat)
    requires SlotsInOrder(s, first)
    requires id < s.nextJobId && !Held(s, id)
    ensures !Held(Apply(tools, s, op), id)
  {
    var t := Apply(tools, s, op);
    forall h ensures !HoldsId(t, h, id) {
      if HoldsId(t, h, id) {
        WasHeld(tools, s, op, h);
        assert false;
      }
    }
  }

  /** A job that ends is gone from the whole fleet. */
  lemma EndingEmpties(tools: ExamTools, s: FleetState, op: Op, first: nat, host: string)
    requires SlotsInOrder(s, first)
    requires EndingAt(tools, s, op, host).Some?
    ensures !Held(Apply(tools, s, op), Slot(s, host).value.id)
  {
    var t, id := Apply(tools, s, op), Slot(s, host).value.id;
    forall h ensures !HoldsId(t, h, id) {
      if HoldsId(t, h, id) {
        WasHeld(tools, s, op, h);
        assert false;
      }
    }
  }

  lemma NewIdIsHeld(tools: ExamTools, s: FleetState, op: Op, id: nat)
    requires s.nextJobId >= 1
    requires s.nextJobId <= id < Apply(tools, s, op).nextJobId
    ensures Held(Apply(tools, s, op), id)
  {
    SlotStep(tools, s, op, "");
    if op.Enqueue? {
      var t := Apply(tools, s, op);
      ActionEffect(tools, s, op.hosts, op.kind, op.examId, op.now, op.wallMs);
      ActionNumbers(tools, s, op.hosts, op.kind, op.examId, op.now, op.wallMs);
      var queued := EnqueueOp(tools, s, op.hosts, op.kind, op.examId, op.now, op.wallMs).1.value.queued;
      assert HoldsJob(t, queued, id);
      var h :| h in queued && Slot(t, h).Some? && Slot(t, h).value.id == id;
      assert HoldsId(t, h, id);
    }
  }

  /** A result that repeats an ended job's id fails no job, on any board, whatever was queued since. */
  lemma RepeatedResultIsStale(tools: ExamTools, s: FleetState, ops: seq<Op>, e: Entry, hb: Heartbeat, now: nat,
                      wallMs: int, host: string)
    requires JustStarted(s)
    requires e in Endings(tools, s, ops)
    requires hb.jobResult.Some? && hb.jobResult.value.id == e.id
    ensures EndingAt(tools, Run(tools, s, ops), Op.Heartbeat(hb, now, wallMs), host) != Some(Failed)
    ensures EndingAt(tools, Run(tools, s, ops), Op.Heartbeat(hb, now, wallMs), host)
         == EndingAt(tools, Run(tools, s, ops), Op.Heartbeat(hb.(jobResult := None), now, wallMs), host)
  {
    Conservation(tools, s, ops);
    assert !HoldsId(Run(tools, s, ops), host, e.id);
  }
}
