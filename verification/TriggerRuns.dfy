/**
 Whole runs of a trigger with any number of drivers on its cursor: handler failures, crashes at any
 point, pauses and resumes, and stale drivers that go on from a cursor others have moved.
 */
module TriggerRuns {
  import opened Prelude
  import opened TriggerLog
  import opened TriggerPass

  type DriverId = nat

  datatype Config = Config(name: string, fromStart: bool, batchSize: nat)

  /** Where one driver stands in `runOnePass`, with what its variables hold. */
  datatype Pc =
    | Idle
    | Peeked(target: nat)
    | Looping(cursorTs: nat, target: nat)
    | Quiet(cursorTs: nat, target: nat, maxScannedTs: nat)
    | Delivering(cursorTs: nat, target: nat, batch: seq<Entry>, advanceTs: nat)
    | Failed(error: string)
    | Succeeded(cursorTs: nat, target: nat, advanceTs: nat)

  /** History: `start` is the cursor the row was created with, `delivered` what successful handler calls were given. */
  datatype World = World(log: Log, row: Row, pcs: map<DriverId, Pc>, start: Option<nat>, delivered: set<Entry>)

  datatype Label =
    | CommitMore(more: seq<Entry>, bound: nat)
    | PeekBound(d: DriverId)
    | Ensure(d: DriverId)
    | Read(d: DriverId, changes: seq<Entry>, maxScannedTs: nat, batch: seq<Entry>, advanceTs: nat)
    | AdvanceQuietly(d: DriverId)
    | BreakCircuit(d: DriverId)
    | HandlerSucceeds(d: DriverId)
    | HandlerFails(d: DriverId, error: string)
    | Record(d: DriverId)
    | Advance(d: DriverId)
    | Leave(d: DriverId)
    | Resuming

  const INITIAL := World(Log([], 0), None, map[], None, {})

  function PcOf(w: World, d: DriverId): Pc {
    if d in w.pcs then w.pcs[d] else Idle
  }

  function At(w: World, d: DriverId, pc: Pc): World {
    w.(pcs := w.pcs[d := pc])
  }

  ghost predicate Enabled(cfg: Config, w: World, l: Label) {
    match l
    case CommitMore(more, bound) => CanGrow(w.log, more, bound)
    case PeekBound(d) => PcOf(w, d).Idle?
    case Ensure(d) => PcOf(w, d).Peeked?
    case Read(d, changes, maxScannedTs, batch, advanceTs) =>
      var pc := PcOf(w, d);
      && pc.Looping? && pc.cursorTs < pc.target
      && ReadOk(w.log, pc.cursorTs, cfg.name, cfg.batchSize, changes, maxScannedTs)
      && (changes != [] ==> CutOk(changes, maxScannedTs, batch, advanceTs))
    case AdvanceQuietly(d) => PcOf(w, d).Quiet?
    case BreakCircuit(d) => PcOf(w, d).Delivering?
    case HandlerSucceeds(d) => PcOf(w, d).Delivering?
    case HandlerFails(d, _) => PcOf(w, d).Delivering?
    case Record(d) => PcOf(w, d).Failed?
    case Advance(d) => PcOf(w, d).Succeeded?
    case Leave(_) => true
    case Resuming => true
  }

  /** The pass goes on from where it believes the cursor to be, whether or not the compare-and-set took effect. */
  function Step(cfg: Config, w: World, l: Label): World
    requires Enabled(cfg, w, l)
  {
    match l
    case CommitMore(more, bound) => w.(log := Grow(w.log, more, bound))
    case PeekBound(d) => At(w, d, Peeked(w.log.bound))
    case Ensure(d) =>
      var target := PcOf(w, d).target;
      var row := InitCursor(w.row, if cfg.fromStart then 0 else target);
      At(w.(row := row, start := if w.row.None? then Some(row.value.cursorTs) else w.start), d,
         if row.value.running then Looping(row.value.cursorTs, target) else Idle)
    case Read(d, changes, maxScannedTs, batch, advanceTs) =>
      var pc := PcOf(w, d);
      At(w, d,
         if changes == [] then (if maxScannedTs <= pc.cursorTs then Idle else Quiet(pc.cursorTs, pc.target, maxScannedTs))
         else Delivering(pc.cursorTs, pc.target, batch, advanceTs))
    case AdvanceQuietly(d) =>
      var pc := PcOf(w, d);
      At(w.(row := AdvanceCursor(w.row, pc.maxScannedTs, pc.cursorTs)), d, Looping(pc.maxScannedTs, pc.target))
    case BreakCircuit(d) => At(w.(row := Pause(w.row, "circuit-breaker")), d, Idle)
    case HandlerSucceeds(d) =>
      var pc := PcOf(w, d);
      At(w.(delivered := w.delivered + Members(pc.batch)), d, Succeeded(pc.cursorTs, pc.target, pc.advanceTs))
    case HandlerFails(d, error) => At(w, d, Failed(error))
    case Record(d) => At(w.(row := RecordFailure(w.row, PcOf(w, d).error)), d, Idle)
    case Advance(d) =>
      var pc := PcOf(w, d);
      At(w.(row := AdvanceCursor(w.row, pc.advanceTs, pc.cursorTs)), d, Looping(pc.advanceTs, pc.target))
    case Leave(d) => At(w, d, Idle)
    case Resuming => w.(row := Resume(w.row))
  }

  function Members(s: seq<Entry>): set<Entry> {
    set e | e in s
  }

  datatype Trace = Empty | Then(before: Trace, step: Label, after: World)

  function Last(tr: Trace): World {
    if tr.Empty? then INITIAL else tr.after
  }

  ghost predicate Valid(cfg: Config, tr: Trace) {
    tr.Then? ==>
      Valid(cfg, tr.before) && Enabled(cfg, Last(tr.before), tr.step) && tr.after == Step(cfg, Last(tr.before), tr.step)
  }

  // ---------------------------------------------------------------- nothing is skipped

  /** Every change of the table with `lo < ts <= hi` has been delivered. */
  ghost predicate Covered(cfg: Config, w: World, lo: nat, hi: nat) {
    forall e :: e in w.log.entries && Watches(cfg.name, e) && lo < e.ts <= hi ==> e in w.delivered
  }

  /** What a driver is entitled to when it asks for the cursor to move. */
  ghost predicate PcOk(cfg: Config, w: World, pc: Pc) {
    (pc.Peeked? || pc.Looping? || pc.Quiet? || pc.Delivering? || pc.Succeeded? ==> pc.target <= w.log.bound)
    && match pc
       case Quiet(cursorTs, _, maxScannedTs) => cursorTs < maxScannedTs <= w.log.bound && Covered(cfg, w, cursorTs, maxScannedTs)
       case Delivering(cursorTs, _, batch, advanceTs) =>
         cursorTs < advanceTs <= w.log.bound && batch == Window(w.log, cfg.name, cursorTs, advanceTs)
       case Succeeded(cursorTs, _, advanceTs) => cursorTs < advanceTs <= w.log.bound && Covered(cfg, w, cursorTs, advanceTs)
       case _ => true
  }

  ghost predicate AllPcsOk(cfg: Config, w: World) {
    forall d :: PcOk(cfg, w, PcOf(w, d))
  }

  ghost predicate CursorOk(cfg: Config, w: World) {
    && LogOk(w.log) && (w.row.Some? <==> w.start.Some?)
    && (w.row.Some? ==> w.start.value <= w.row.value.cursorTs <= w.log.bound && Covered(cfg, w, w.start.value, w.row.value.cursorTs))
  }

  lemma GrowKeepsPc(cfg: Config, w: World, more: seq<Entry>, bound: nat, pc: Pc)
    requires LogOk(w.log) && PcOk(cfg, w, pc)
    ensures PcOk(cfg, w.(log := Grow(w.log, more, bound)), pc)
  {
    GrowExtends(w.log, more, bound);
    if pc.Delivering? {
      WindowStable(w.log, Grow(w.log, more, bound), cfg.name, pc.cursorTs, pc.advanceTs);
    }
  }

  lemma ReadKeeps(cfg: Config, w: World, cursorTs: nat, changes: seq<Entry>, maxScannedTs: nat, batch: seq<Entry>,
                  advanceTs: nat)
    requires LogOk(w.log) && cfg.batchSize > 0 && cursorTs < w.log.bound
    requires ReadOk(w.log, cursorTs, cfg.name, cfg.batchSize, changes, maxScannedTs)
    requires changes != [] ==> CutOk(changes, maxScannedTs, batch, advanceTs)
    ensures changes == [] ==> cursorTs < maxScannedTs <= w.log.bound && Covered(cfg, w, cursorTs, maxScannedTs)
    ensures changes != [] ==> cursorTs < advanceTs <= w.log.bound && batch == Window(w.log, cfg.name, cursorTs, advanceTs)
  {
    if changes == [] {
      forall e ensures !(e in w.log.entries && Watches(cfg.name, e) && cursorTs < e.ts <= maxScannedTs) {
        WindowMembers(w.log, cfg.name, cursorTs, maxScannedTs, e);
      }
    } else {
      CutIsWindow(w.log, cfg.name, cursorTs, changes, maxScannedTs, batch, advanceTs);
    }
  }

  lemma DeliveryCovers(cfg: Config, w: World, batch: seq<Entry>, lo: nat, hi: nat)
    requires batch == Window(w.log, cfg.name, lo, hi) && Members(batch) <= w.delivered
    ensures Covered(cfg, w, lo, hi)
  {
    forall e | e in w.log.entries && Watches(cfg.name, e) && lo < e.ts <= hi ensures e in w.delivered {
      WindowMembers(w.log, cfg.name, lo, hi, e);
      assert e in Members(batch);
    }
  }

  /** The step's own driver is entitled to where it goes next. */
  lemma StepKeepsOwn(cfg: Config, w: World, l: Label, d: DriverId)
    requires CursorOk(cfg, w) && AllPcsOk(cfg, w) && Enabled(cfg, w, l) && cfg.batchSize > 0
    requires !l.CommitMore? && !l.Resuming? && l.d == d
    ensures PcOk(cfg, Step(cfg, w, l), PcOf(Step(cfg, w, l), d))
  {
    assert PcOk(cfg, w, PcOf(w, d));
    if l.Read? {
      ReadKeeps(cfg, w, PcOf(w, d).cursorTs, l.changes, l.maxScannedTs, l.batch, l.advanceTs);
    }
    if l.HandlerSucceeds? {
      var pc := PcOf(w, d);
      DeliveryCovers(cfg, Step(cfg, w, l), pc.batch, pc.cursorTs, pc.advanceTs);
    }
  }

  lemma MoreDelivered(cfg: Config, w: World, v: World, pc: Pc)
    requires PcOk(cfg, w, pc) && v.log == w.log && w.delivered <= v.delivered
    ensures PcOk(cfg, v, pc)
  {
  }

  /** The others keep what they are entitled to. */
  lemma StepKeepsOther(cfg: Config, w: World, l: Label, d: DriverId)
    requires CursorOk(cfg, w) && AllPcsOk(cfg, w) && Enabled(cfg, w, l)
    requires l.CommitMore? || l.Resuming? || l.d != d
    ensures PcOk(cfg, Step(cfg, w, l), PcOf(Step(cfg, w, l), d))
  {
    assert PcOk(cfg, w, PcOf(w, d));
    var v := Step(cfg, w, l);
    if l.CommitMore? {
      GrowKeepsPc(cfg, w, l.more, l.bound, PcOf(w, d));
    } else {
      assert PcOf(v, d) == PcOf(w, d) && v.log == w.log && w.delivered <= v.delivered;
      MoreDelivered(cfg, w, v, PcOf(w, d));
    }
  }

  lemma StepKeepsCursor(cfg: Config, w: World, l: Label)
    requires CursorOk(cfg, w) && AllPcsOk(cfg, w) && Enabled(cfg, w, l)
    ensures CursorOk(cfg, Step(cfg, w, l))
  {
  }

  lemma {:induction false} RunOk(cfg: Config, tr: Trace)
    requires Valid(cfg, tr) && cfg.batchSize > 0
    ensures CursorOk(cfg, Last(tr)) && AllPcsOk(cfg, Last(tr))
  {
    if tr.Then? {
      RunOk(cfg, tr.before);
      var w, l := Last(tr.before), tr.step;
      StepKeepsCursor(cfg, w, l);
      forall d ensures PcOk(cfg, tr.after, PcOf(tr.after, d)) {
        if l.CommitMore? || l.Resuming? || l.d != d {
          StepKeepsOther(cfg, w, l, d);
        } else {
          StepKeepsOwn(cfg, w, l, d);
        }
      }
    }
  }

  /** A change of the watched table that the persisted cursor has passed. */
  predicate Passed(cfg: Config, w: World, e: Entry) {
    && w.row.Some? && w.start.Some? && e in w.log.entries && Watches(cfg.name, e)
    && w.start.value < e.ts <= w.row.value.cursorTs
  }

  /**
   Nothing is skipped: in every reachable state, each change of the watched table after the initial
   cursor and up to the persisted cursor was in a batch whose handler succeeded.
   */
  lemma NothingSkipped(cfg: Config, tr: Trace, e: Entry)
    requires Valid(cfg, tr) && cfg.batchSize > 0 && Passed(cfg, Last(tr), e)
    ensures e in Last(tr).delivered
  {
    RunOk(cfg, tr);
  }

  /** A driver only ever asks for the cursor to move forward. */
  predicate Forward(pc: Pc) {
    match pc
    case Quiet(cursorTs, _, maxScannedTs) => cursorTs < maxScannedTs
    case Delivering(cursorTs, _, _, advanceTs) => cursorTs < advanceTs
    case Succeeded(cursorTs, _, advanceTs) => cursorTs < advanceTs
    case _ => true
  }

  lemma StepForward(cfg: Config, w: World, l: Label, d: DriverId)
    requires LogOk(w.log) && Enabled(cfg, w, l) && Forward(PcOf(w, d))
    ensures Forward(PcOf(Step(cfg, w, l), d))
  {
    if l.Read? && l.d == d && l.changes != [] {
      CutIsWindow(w.log, cfg.name, PcOf(w, d).cursorTs, l.changes, l.maxScannedTs, l.batch, l.advanceTs);
    }
  }

  lemma {:induction false} AllForward(cfg: Config, tr: Trace)
    requires Valid(cfg, tr)
    ensures LogOk(Last(tr).log) && forall d :: Forward(PcOf(Last(tr), d))
  {
    if tr.Then? {
      var w := Last(tr.before);
      AllForward(cfg, tr.before);
      if tr.step.CommitMore? {
        GrowExtends(w.log, tr.step.more, tr.step.bound);
      }
      forall d ensures Forward(PcOf(tr.after, d)) {
        StepForward(cfg, w, tr.step, d);
      }
    }
  }

  /** The persisted cursor never moves back, whoever writes it; the row is created once and stays. */
  lemma CursorNeverMovesBack(cfg: Config, tr: Trace)
    requires Valid(cfg, tr) && tr.Then? && Last(tr.before).row.Some?
    ensures tr.after.row.Some? && tr.after.start == Last(tr.before).start
    ensures Last(tr.before).row.value.cursorTs <= tr.after.row.value.cursorTs
  {
    AllForward(cfg, tr.before);
    StepMovesCursor(cfg, Last(tr.before), tr.step);
  }

  lemma StepMovesCursor(cfg: Config, w: World, l: Label)
    requires Enabled(cfg, w, l) && w.row.Some? && forall d :: Forward(PcOf(w, d))
    ensures Step(cfg, w, l).row.Some? && Step(cfg, w, l).start == w.start
    ensures w.row.value.cursorTs <= Step(cfg, w, l).row.value.cursorTs
  {
    if l.Advance? || l.AdvanceQuietly? {
      assert Forward(PcOf(w, l.d));
    }
  }

  // ---------------------------------------------------------------- a batch size of zero

  ghost function Extend(cfg: Config, tr: Trace, l: Label): Trace
    requires Enabled(cfg, Last(tr), l)
  {
    Then(tr, l, Step(cfg, Last(tr), l))
  }

  /** With a batch size of zero a read peeks instead of scanning, and the cursor moves over changes nobody was given. */
  lemma ZeroBatchSkips(cfg: Config, e: Entry) returns (tr: Trace)
    requires cfg.batchSize == 0 && Watches(cfg.name, e) && e.ts > 0
    ensures Valid(cfg, tr) && Passed(cfg, Last(tr), e) && Last(tr).delivered == {}
  {
    tr := EmptyCursor(cfg);
    tr := Extend(cfg, tr, CommitMore([e], e.ts));
    assert Valid(cfg, tr) && Last(tr).log == Log([e], e.ts);
    assert e in Last(tr).log.entries;
    tr := Extend(cfg, tr, PeekBound(0));
    assert Valid(cfg, tr) && PcOf(Last(tr), 0) == Peeked(e.ts);
    tr := Extend(cfg, tr, Ensure(0));
    var w := Last(tr);
    assert w.row.value.running && w.row.value.cursorTs == 0;
    assert 0 in w.pcs && w.pcs[0] == Looping(0, e.ts);
    tr := Extend(cfg, tr, Read(0, [], e.ts, [], 0));
    w := Last(tr);
    assert 0 in w.pcs && w.pcs[0] == Quiet(0, e.ts, e.ts);
    assert Valid(cfg, tr);
    tr := Extend(cfg, tr, AdvanceQuietly(0));
  }

  /** A first attempt on an empty log: the cursor starts at zero. */
  lemma EmptyCursor(cfg: Config) returns (tr: Trace)
    ensures Valid(cfg, tr) && Last(tr).log == Log([], 0) && Last(tr).row == Some(CursorRow(0, true, 0, None, None))
    ensures Last(tr).start == Some(0) && Last(tr).delivered == {} && PcOf(Last(tr), 0).Idle?
  {
    tr := Extend(cfg, Empty, PeekBound(0));
    var w := Last(tr);
    assert w.log == Log([], 0) && w.row.None? && w.delivered == {};
    assert 0 in w.pcs && w.pcs[0] == Peeked(0);
    assert PcOf(w, 0) == Peeked(0);
    assert Valid(cfg, tr);
    tr := Extend(cfg, tr, Ensure(0));
    assert Valid(cfg, tr);
    tr := Extend(cfg, tr, Leave(0));
  }

  ghost predicate NeverSkips(cfg: Config) {
    forall tr, e :: Valid(cfg, tr) && Passed(cfg, Last(tr), e) ==> e in Last(tr).delivered
  }

  /** Nothing is ever skipped if and only if the configured batch size is not zero. */
  lemma NeverSkipsIff(cfg: Config)
    requires '/' !in cfg.name && !("_" <= cfg.name)
    ensures NeverSkips(cfg) <==> cfg.batchSize > 0
  {
    if cfg.batchSize > 0 {
      forall tr, e | Valid(cfg, tr) && Passed(cfg, Last(tr), e) ensures e in Last(tr).delivered {
        NothingSkipped(cfg, tr, e);
      }
    } else {
      var e := Entry(1, Some(cfg.name), "", None, 0);
      var tr := ZeroBatchSkips(cfg, e);
      assert Passed(cfg, Last(tr), e);
    }
  }

  // ---------------------------------------------------------------- the failure streak

  /** The failures recorded since the cursor last moved or was resumed. */
  ghost function Streak(cfg: Config, tr: Trace): nat {
    if tr.Empty? then 0
    else
      var w, l := Last(tr.before), tr.step;
      if l.Record? && w.row.Some? then Streak(cfg, tr.before) + 1
      else if l.Resuming? || (l.Advance? && Moved(w, tr.after)) || (l.AdvanceQuietly? && Moved(w, tr.after)) then 0
      else Streak(cfg, tr.before)
  }

  predicate Moved(w: World, after: World) {
    w.row.Some? && after.row.Some? && w.row.value.cursorTs != after.row.value.cursorTs
  }

  /**
   A trigger that runs has failed fewer than eight times since it last made progress; the eighth failure
   pauses it.
   */
  lemma {:induction false} PausedAfterEightFailures(cfg: Config, tr: Trace)
    requires Valid(cfg, tr)
    ensures var row := Last(tr).row;
            && (row.Some? ==> row.value.failureCount == Streak(cfg, tr))
            && (row.None? ==> Streak(cfg, tr) == 0)
            && (row.Some? && row.value.running ==> Streak(cfg, tr) < 8)
  {
    if tr.Then? {
      PausedAfterEightFailures(cfg, tr.before);
      AllForward(cfg, tr.before);
      var l := tr.step;
      if l.Advance? || l.AdvanceQuietly? {
        assert Forward(PcOf(Last(tr.before), l.d));
      }
    }
  }

  // ---------------------------------------------------------------- what a step does to the row

  /** The cursor is where it was, whatever else of the row is not. */
  predicate SameCursor(before: Row, after: Row) {
    before.Some? && after.Some? && after.value.cursorTs == before.value.cursorTs
  }

  /** A pause with a reason, or no change if the trigger was not running. */
  predicate Paused(before: Row, after: Row, reason: string) {
    if before.Some? && before.value.running
    then after == Some(before.value.(running := false, pausedReason := Some(reason)))
    else after == before
  }

  /**
   What the steps of a run do to the cursor row. A new row starts at zero, or at the bound that was peeked; an
   advance moves the cursor exactly if it is where the driver believes it, and then clears the failures;
   a failure is counted with its error and the eighth pauses; the breaker pauses a running trigger; a
   resume makes it run again with nothing counted. No other step touches the row.
   */
  lemma RowEffects(cfg: Config, tr: Trace)
    requires Valid(cfg, tr) && tr.Then?
    ensures var w, l, before, after := Last(tr.before), tr.step, Last(tr.before).row, tr.after.row;
            var moves := l.Advance? || l.AdvanceQuietly?;
            var to := if l.Advance? then PcOf(w, l.d).advanceTs else if l.AdvanceQuietly? then PcOf(w, l.d).maxScannedTs else 0;
            && (l.Ensure? && before.None? ==> after == Some(CursorRow(if cfg.fromStart then 0 else PcOf(w, l.d).target, true, 0, None, None)))
            && (moves && before.Some? && before.value.cursorTs == PcOf(w, l.d).cursorTs ==>
                  after == Some(before.value.(cursorTs := to, failureCount := 0, lastError := None)))
            && (moves && (before.Some? ==> before.value.cursorTs != PcOf(w, l.d).cursorTs) ==> after == before)
            && (l.Record? && before.Some? ==>
                  && SameCursor(before, after) && after.value.failureCount == before.value.failureCount + 1
                  && after.value.lastError == Some(PcOf(w, l.d).error)
                  && (after.value.failureCount >= 8 ==> !after.value.running && after.value.pausedReason == Some("max-failures"))
                  && (after.value.failureCount < 8 ==> after.value.running == before.value.running && after.value.pausedReason == before.value.pausedReason))
            && (l.BreakCircuit? ==> Paused(before, after, "circuit-breaker"))
            && (l.Resuming? && before.Some? ==>
                  SameCursor(before, after) && after.value.running && after.value.failureCount == 0 && after.value.pausedReason.None?)
            && (!moves && !l.Record? && !l.BreakCircuit? && !l.Resuming? && (l.Ensure? ==> before.Some?) ==> after == before)
  {
  }
}
