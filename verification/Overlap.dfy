/** Two savers at once: the background task's, and the one that the server forces when it shuts down. */
module Overlap {
  import opened Strings
  import opened FleetModel
  import opened FleetRun
  import opened Saving

  datatype TwoSavers = TwoSavers(fleet: FleetState, first: Saver, second: Saver, disk: Option<Snapshot>)

  datatype Who = First | Second

  /** A step of one of them; the fleet and the disk are shared. */
  function StepOf(tools: ExamTools, s: TwoSavers, who: Who, step: SaveStep): TwoSavers {
    match who
    case First =>
      var t := TakeStep(tools, SaveState(s.fleet, s.first, s.disk), step);
      TwoSavers(t.fleet, t.saver, s.second, t.disk)
    case Second =>
      var t := TakeStep(tools, SaveState(s.fleet, s.second, s.disk), step);
      TwoSavers(t.fleet, s.first, t.saver, t.disk)
  }

  /** If a forced save overlaps another, the older snapshot can be written last. */
  lemma OverlapCanLose(tools: ExamTools, s: FleetState, disk: Option<Snapshot>, op: Op)
    requires op.Announce?
    ensures
      var s1 := StepOf(tools, TwoSavers(s, Idle, Idle, disk), First, Begin(true));
      var s2 := StepOf(tools, s1, First, Operate(op));
      var s3 := StepOf(tools, s2, Second, Begin(true));
      var s4 := StepOf(tools, s3, Second, WriteDone);
      var s5 := StepOf(tools, s4, First, WriteDone);
      && !s5.fleet.dirty && s5.first.Idle? && s5.second.Idle?
      && s5.disk.Some? && Durable(s5.disk.value) != Durable(TakeSnapshot(s5.fleet))
  {
    var t := Apply(tools, s.(dirty := false), op);
    assert TakeSnapshot(t).nextEventId == TakeSnapshot(s).nextEventId + 1;
  }

  // ----- the order of writes ---------------------------------------------------------------

  /** A run of both, with its history: the snapshots in the order their saves began, the number of each
      saver's latest save, and the numbers of the finished writes in the order they finished. */
  datatype History = History(saves: TwoSavers, begun: seq<Snapshot>, firstNo: nat, secondNo: nat, written: seq<nat>)

  function SaverOf(s: TwoSavers, who: Who): Saver {
    match who case First => s.first case Second => s.second
  }

  function Other(who: Who): Who {
    match who case First => Second case Second => First
  }

  function NumberOf(r: History, who: Who): nat {
    match who case First => r.firstNo case Second => r.secondNo
  }

  function HistoryStep(tools: ExamTools, r: History, who: Who, step: SaveStep): History {
    var t := StepOf(tools, r.saves, who, step);
    var began := step.Begin? && SaverOf(r.saves, who).Idle? && SaverOf(t, who).Writing?;
    var finished := step.WriteDone? && SaverOf(r.saves, who).Writing?;
    History(t,
           if began then r.begun + [SaverOf(t, who).snap] else r.begun,
           if began && who.First? then |r.begun| else r.firstNo,
           if began && who.Second? then |r.begun| else r.secondNo,
           if finished then r.written + [NumberOf(r, who)] else r.written)
  }

  function RunBoth(tools: ExamTools, r: History, steps: seq<(Who, SaveStep)>): History {
    if steps == [] then r
    else
      var n := |steps| - 1;
      HistoryStep(tools, RunBoth(tools, r, steps[..n]), steps[n].0, steps[n].1)
  }

  /** The server has just started, with the flag set. */
  predicate Start(r: History) {
    r.saves.fleet.dirty && r.saves.first.Idle? && r.saves.second.Idle? && r.begun == [] && r.written == []
  }

  predicate Saved(s: TwoSavers) {
    s.disk.Some? && Durable(s.disk.value) == Durable(TakeSnapshot(s.fleet))
  }

  /** Nothing to save and no save in flight. */
  predicate Quiet(s: TwoSavers) {
    !s.fleet.dirty && s.first.Idle? && s.second.Idle?
  }

  /** A write in flight carries the snapshot its save began with. */
  predicate Carries(r: History, who: Who) {
    var saver := SaverOf(r.saves, who);
    saver.Writing? ==> NumberOf(r, who) < |r.begun| && r.begun[NumberOf(r, who)] == saver.snap
  }

  /** This saver is still at work on the save with this number. */
  predicate Busy(r: History, who: Who, no: nat) {
    !SaverOf(r.saves, who).Idle? && NumberOf(r, who) == no
  }

  predicate DiskIsLastWritten(r: History) {
    && (forall i | 0 <= i < |r.written| :: r.written[i] < |r.begun|)
    && (r.written != [] ==>
          && r.written[|r.written| - 1] < |r.begun|
          && r.saves.disk == Some(r.begun[r.written[|r.written| - 1]]))
  }

  /** With the flag unset the save begun last has the current state, and is written or under way. */
  predicate LastBegunIsCurrent(r: History) {
    !r.saves.fleet.dirty ==>
      && r.begun != []
      && Durable(r.begun[|r.begun| - 1]) == Durable(TakeSnapshot(r.saves.fleet))
      && var no := |r.begun| - 1;
         no in r.written || Busy(r, First, no) || Busy(r, Second, no)
  }

  predicate Kept(r: History) {
    Carries(r, First) && Carries(r, Second) && DiskIsLastWritten(r) && LastBegunIsCurrent(r)
  }

  lemma StepKeeps(tools: ExamTools, r: History, who: Who, step: SaveStep)
    requires Kept(r)
    ensures Kept(HistoryStep(tools, r, who, step))
  {
    match step
    case Operate(_) => OperateKeeps(tools, r, who, step);
    case Begin(_) => BeginKeeps(tools, r, who, step);
    case WriteDone => WriteKeeps(tools, r, who);
    case WriteFailed => FailureKeeps(tools, r, who, step);
    case FlagAgain => FailureKeeps(tools, r, who, step);
  }

  lemma OperateKeeps(tools: ExamTools, r: History, who: Who, step: SaveStep)
    requires Kept(r) && step.Operate?
    ensures Kept(HistoryStep(tools, r, who, step))
  {
    OperateTouchesFleet(tools, r, who, step);
    if !step.op.Restart? {
      FlaggedOrUnchanged(tools, r.saves.fleet, step.op);
      FleetMoves(r, Apply(tools, r.saves.fleet, step.op));
    }
  }

  lemma OperateTouchesFleet(tools: ExamTools, r: History, who: Who, step: SaveStep)
    requires step.Operate?
    ensures
      var fleet := if step.op.Restart? then r.saves.fleet else Apply(tools, r.saves.fleet, step.op);
      HistoryStep(tools, r, who, step) == r.(saves := r.saves.(fleet := fleet))
  {
  }

  lemma FleetMoves(r: History, fleet: FleetState)
    requires Kept(r)
    requires
      || fleet.dirty
      || (!r.saves.fleet.dirty && Durable(TakeSnapshot(fleet)) == Durable(TakeSnapshot(r.saves.fleet)))
    ensures Kept(r.(saves := r.saves.(fleet := fleet)))
  {
  }

  lemma BeginKeeps(tools: ExamTools, r: History, who: Who, step: SaveStep)
    requires Kept(r) && step.Begin?
    ensures Kept(HistoryStep(tools, r, who, step))
  {
    BeginAppends(tools, r, who, step);
    var t := HistoryStep(tools, r, who, step);
    if t != r {
      OneMoreBegun(r, t, who);
    }
  }

  /** The save just begun carries the state of the fleet, and nothing else changed. */
  predicate JustBegun(r: History, t: History, who: Who) {
    && t.begun == r.begun + [TakeSnapshot(r.saves.fleet)] && NumberOf(t, who) == |r.begun|
    && SaverOf(t.saves, who) == Writing(TakeSnapshot(r.saves.fleet))
    && SaverOf(t.saves, Other(who)) == SaverOf(r.saves, Other(who))
    && NumberOf(t, Other(who)) == NumberOf(r, Other(who))
    && t.saves.fleet == r.saves.fleet.(dirty := false)
    && t.saves.disk == r.saves.disk && t.written == r.written
  }

  lemma BeginAppends(tools: ExamTools, r: History, who: Who, step: SaveStep)
    requires step.Begin?
    ensures
      var t := HistoryStep(tools, r, who, step);
      t == r || JustBegun(r, t, who)
  {
  }

  lemma OneMoreBegun(r: History, t: History, who: Who)
    requires Kept(r) && JustBegun(r, t, who)
    ensures Kept(t)
  {
    assert t.begun[|t.begun| - 1] == TakeSnapshot(r.saves.fleet);
    assert Carries(r, Other(who)) && Carries(t, who) && Carries(t, Other(who));
    assert Busy(t, who, |r.begun|);
  }

  lemma WriteKeeps(tools: ExamTools, r: History, who: Who)
    requires Kept(r)
    ensures Kept(HistoryStep(tools, r, who, WriteDone))
  {
    WriteAppends(tools, r, who);
    var t := HistoryStep(tools, r, who, WriteDone);
    if t != r {
      OneMoreWritten(r, t, who);
    }
  }

  /** The write just finished put its snapshot on disk, and nothing else changed. */
  predicate JustWritten(r: History, t: History, who: Who) {
    && SaverOf(r.saves, who).Writing? && t.saves.disk == Some(SaverOf(r.saves, who).snap)
    && SaverOf(t.saves, who).Idle? && SaverOf(t.saves, Other(who)) == SaverOf(r.saves, Other(who))
    && t.written == r.written + [NumberOf(r, who)]
    && t.saves.fleet == r.saves.fleet && t.begun == r.begun
    && NumberOf(t, who) == NumberOf(r, who) && NumberOf(t, Other(who)) == NumberOf(r, Other(who))
  }

  lemma WriteAppends(tools: ExamTools, r: History, who: Who)
    ensures
      var t := HistoryStep(tools, r, who, WriteDone);
      t == r || JustWritten(r, t, who)
  {
  }

  lemma OneMoreWritten(r: History, t: History, who: Who)
    requires Kept(r) && JustWritten(r, t, who)
    ensures Kept(t)
  {
    assert Carries(r, who) && Carries(r, Other(who));
    assert Carries(t, who) && Carries(t, Other(who));
    assert t.written[|r.written|] == NumberOf(r, who);
  }

  lemma FailureKeeps(tools: ExamTools, r: History, who: Who, step: SaveStep)
    requires Kept(r) && (step.WriteFailed? || step.FlagAgain?)
    ensures Kept(HistoryStep(tools, r, who, step))
  {
    FailureTouchesSaver(tools, r, who, step);
    SaverRests(r, HistoryStep(tools, r, who, step), who);
  }

  /** A failed write leaves everything but the saver and the flag alone. */
  lemma FailureTouchesSaver(tools: ExamTools, r: History, who: Who, step: SaveStep)
    requires step.WriteFailed? || step.FlagAgain?
    ensures
      var t := HistoryStep(tools, r, who, step);
      && t == r.(saves := t.saves) && t.saves.disk == r.saves.disk
      && SaverOf(t.saves, Other(who)) == SaverOf(r.saves, Other(who))
      && (t.saves == r.saves
          || (t.saves.fleet == r.saves.fleet && SaverOf(t.saves, who).Refused? && SaverOf(r.saves, who).Writing?)
          || (t.saves.fleet.dirty && SaverOf(t.saves, who).Idle?))
  {
  }

  lemma SaverRests(r: History, t: History, who: Who)
    requires Kept(r) && t == r.(saves := t.saves) && t.saves.disk == r.saves.disk
    requires SaverOf(t.saves, Other(who)) == SaverOf(r.saves, Other(who))
    requires
      || t.saves == r.saves
      || (t.saves.fleet == r.saves.fleet && SaverOf(t.saves, who).Refused? && SaverOf(r.saves, who).Writing?)
      || (t.saves.fleet.dirty && SaverOf(t.saves, who).Idle?)
    ensures Kept(t)
  {
    assert SaverOf(t.saves, First) == t.saves.first && SaverOf(t.saves, Second) == t.saves.second;
  }

  lemma {:induction false} RunKeeps(tools: ExamTools, r: History, steps: seq<(Who, SaveStep)>)
    requires Start(r)
    ensures Kept(RunBoth(tools, r, steps))
  {
    if steps == [] {
    } else {
      var n := |steps| - 1;
      RunKeeps(tools, r, steps[..n]);
      StepKeeps(tools, RunBoth(tools, r, steps[..n]), steps[n].0, steps[n].1);
    }
  }

  /** The exact condition: whatever the interleaving, when all is quiet the disk has the current state, up
      to last-seen times, if and only if the write that finished last carried what the save begun last did. */
  lemma SavedExactlyWhen(tools: ExamTools, r: History, steps: seq<(Who, SaveStep)>, t: History)
    requires Start(r) && t == RunBoth(tools, r, steps) && Quiet(t.saves)
    ensures t.written != [] && t.written[|t.written| - 1] < |t.begun|
    ensures Saved(t.saves) <==> Durable(t.begun[t.written[|t.written| - 1]]) == Durable(t.begun[|t.begun| - 1])
  {
    RunKeeps(tools, r, steps);
    QuietDisk(t);
  }

  lemma QuietDisk(t: History)
    requires Kept(t) && Quiet(t.saves)
    ensures t.written != [] && t.written[|t.written| - 1] < |t.begun|
    ensures Saved(t.saves) <==> Durable(t.begun[t.written[|t.written| - 1]]) == Durable(t.begun[|t.begun| - 1])
  {
  }

  predicate Rising(written: seq<nat>) {
    forall i, j | 0 <= i < j < |written| :: written[i] < written[j]
  }

  /** Writes that finish in the order their saves began lose nothing. */
  lemma InOrderIsSafe(tools: ExamTools, r: History, steps: seq<(Who, SaveStep)>, t: History)
    requires Start(r) && t == RunBoth(tools, r, steps) && Quiet(t.saves) && Rising(t.written)
    ensures Saved(t.saves)
  {
    RunKeeps(tools, r, steps);
    InOrderIsCurrent(t);
  }

  lemma InOrderIsCurrent(t: History)
    requires Kept(t) && Quiet(t.saves) && Rising(t.written)
    ensures Saved(t.saves)
  {
    assert t.begun != [] && (|t.begun| - 1) in t.written;
    GreatestIsLast(t.written, |t.begun|);
  }

  lemma GreatestIsLast(written: seq<nat>, n: nat)
    requires n > 0 && (n - 1) in written
    requires forall i | 0 <= i < |written| :: written[i] < n
    requires Rising(written)
    ensures written[|written| - 1] == n - 1
  {
    var i :| 0 <= i < |written| && written[i] == n - 1;
  }
}
