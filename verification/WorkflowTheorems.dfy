/**
 What every run of a workflow satisfies: its journal is the handler's own, it ends as the handler
 run directly would, it is never stranded, and a terminal run stays as it is.
 */
module WorkflowTheorems {
  import opened Prelude
  import opened Sums
  import opened WorkflowTypes
  import opened WorkflowReplay
  import opened WorkflowMachine
  import opened WorkflowRuns
  import opened WorkflowInvariant

  /** The states a run can be in after `ctx.workflow.start`. */
  function Reached(h: Handler, maxParallelism: nat, onComplete: Option<string>, start: int, labels: seq<Label>): Run {
    Exec(h, maxParallelism, Initial(onComplete, start), labels)
  }

  lemma InitialInv(h: Handler, onComplete: Option<string>, now: int)
    ensures Inv(h, Initial(onComplete, now))
  {
    var r := Initial(onComplete, now);
    assert r.jobs[..0] == [];
    assert UndoSteps(r.jobs) == [];
    UntouchedIsSagaOk(r);
    assert r.jobs[0].kind.AdvanceJob?;
  }

  lemma {:induction false} ExecInv(h: Handler, maxParallelism: nat, r: Run, labels: seq<Label>)
    requires Inv(h, r) && maxParallelism >= 1
    ensures Inv(h, Exec(h, maxParallelism, r, labels))
  {
    if labels != [] {
      ExecInv(h, maxParallelism, r, labels[..|labels| - 1]);
      StepKeepsInv(h, maxParallelism, Exec(h, maxParallelism, r, labels[..|labels| - 1]), labels[|labels| - 1]);
    }
  }

  lemma ReachedInv(h: Handler, maxParallelism: nat, onComplete: Option<string>, start: int, labels: seq<Label>)
    requires maxParallelism >= 1
    ensures Inv(h, Reached(h, maxParallelism, onComplete, start, labels))
  {
    InitialInv(h, onComplete, start);
    ExecInv(h, maxParallelism, Initial(onComplete, start), labels);
  }

  // ---------------------------------------------------------------- the journal

  /** The request the handler makes as its `i`-th step when it is run directly. */
  function RequestAt(h: Handler, o: Oracle, i: nat, pos: nat): Option<Request>
    requires pos <= i
    decreases i - pos
  {
    var a := h(History(o, pos));
    if !a.Await? then None
    else if i < pos + |Wave(a)| then Some(Wave(a)[i - pos])
    else RequestAt(h, o, i, pos + |Wave(a)|)
  }

  lemma {:induction false} ShapeIsEmission(h: Handler, journal: seq<StepRow>, o: Oracle, i: nat, pos: nat)
    requires pos <= i < |journal| && SettledTo(journal, pos) && ShapeFrom(h, journal, pos) && Consistent(o, journal)
    ensures var q := RequestAt(h, o, i, pos); q.Some? && Matches(journal[i], q.value)
    decreases |journal| - pos
  {
    SeenIsHistory(o, journal, pos);
    var a := h(Seen(journal, pos));
    if i < pos + |Wave(a)| {
      assert Matches(journal[pos + (i - pos)], Wave(a)[i - pos]);
    } else {
      ShapeIsEmission(h, journal, o, i, pos + |Wave(a)|);
    }
  }

  /**
   Journal shape: step numbers are exactly 0, 1, …; row `i` is the `i`-th request of the direct
   run under every oracle that agrees with the journal; and a replay never finds a mismatch.
   */
  lemma JournalShape(h: Handler, maxParallelism: nat, onComplete: Option<string>, start: int, labels: seq<Label>,
                     o: Oracle, now: int)
    requires maxParallelism >= 1
    requires Consistent(o, Reached(h, maxParallelism, onComplete, start, labels).steps)
    ensures var r := Reached(h, maxParallelism, onComplete, start, labels);
            && (forall i :: 0 <= i < |r.steps| ==>
                  && r.steps[i].stepNumber == i
                  && RequestAt(h, o, i, 0).Some?
                  && Matches(r.steps[i], RequestAt(h, o, i, 0).value))
            && Replay(h, r.steps, now) != Threw(JournalMismatch)
  {
    var r := Reached(h, maxParallelism, onComplete, start, labels);
    ReachedInv(h, maxParallelism, onComplete, start, labels);
    forall i | 0 <= i < |r.steps|
      ensures r.steps[i].stepNumber == i && RequestAt(h, o, i, 0).Some? && Matches(r.steps[i], RequestAt(h, o, i, 0).value)
    {
      assert StepInv(r, i);
      ShapeIsEmission(h, r.steps, o, i, 0);
    }
    ReplayOfShape(h, r.steps, 0, now);
  }

  /** Each journaled step that is not an event wait has exactly one job, and each step job has a row. */
  lemma EnqueuedOnce(h: Handler, maxParallelism: nat, onComplete: Option<string>, start: int, labels: seq<Label>)
    requires maxParallelism >= 1
    ensures var r := Reached(h, maxParallelism, onComplete, start, labels);
            && (forall i :: 0 <= i < |r.steps| && !r.steps[i].kind.WaitForEvent? ==>
                  exists j :: 0 <= j < |r.jobs| && r.jobs[j].kind.ForwardJob? && r.jobs[j].kind.step == i)
            && (forall j, k ::
                  (0 <= j < |r.jobs| && 0 <= k < |r.jobs| && r.jobs[j].kind.ForwardJob? && r.jobs[k].kind.ForwardJob?
                   && r.jobs[j].kind.step == r.jobs[k].kind.step) ==> j == k)
            && (forall j :: 0 <= j < |r.jobs| && r.jobs[j].kind.ForwardJob? ==>
                  r.jobs[j].kind.step < |r.steps| && !r.steps[r.jobs[j].kind.step].kind.WaitForEvent?)
  {
    var r := Reached(h, maxParallelism, onComplete, start, labels);
    ReachedInv(h, maxParallelism, onComplete, start, labels);
    forall i | 0 <= i < |r.steps| && !r.steps[i].kind.WaitForEvent?
      ensures exists j :: 0 <= j < |r.jobs| && r.jobs[j].kind.ForwardJob? && r.jobs[j].kind.step == i
    {
      assert StepInv(r, i);
    }
    forall j, k | 0 <= j < |r.jobs| && 0 <= k < |r.jobs| && r.jobs[j].kind.ForwardJob? && r.jobs[k].kind.ForwardJob?
                  && r.jobs[j].kind.step == r.jobs[k].kind.step
      ensures j == k
    {
      assert JobInv(r, j) && JobInv(r, k);
    }
    forall j | 0 <= j < |r.jobs| && r.jobs[j].kind.ForwardJob?
      ensures r.jobs[j].kind.step < |r.steps| && !r.steps[r.jobs[j].kind.step].kind.WaitForEvent?
    {
      assert JobInv(r, j) && StepInv(r, r.jobs[j].kind.step);
    }
  }

  // ---------------------------------------------------------------- the verdict

  /** The error the run failed with before anything went wrong with its unwind. */
  function RootError(e: WfError): WfError {
    if e.UndoFailed? && e.original.Some? then RootError(e.original.value) else e
  }

  /** The outcome on the row is the one a replay of the (fully settled) journal gives. */
  predicate Verdict(h: Handler, r: Run) {
    && (r.wf.state.Completed? ==> r.wf.result.Some? && Settled(r.steps) && Replay(h, r.steps, 0) == Finished(r.wf.result.value))
    && (r.wf.state.Running? ==> r.wf.error.None? && r.wf.result.None?)
    && (r.wf.state.Compensating? || r.wf.state.Failed? ==> r.wf.error.Some?)
    && (r.wf.error.Some? ==>
          match RootError(r.wf.error.value)
          case HandlerError(e) => Settled(r.steps) && Replay(h, r.steps, 0) == Threw(HandlerError(e))
          case StalledOnForeignAwait => Settled(r.steps) && Replay(h, r.steps, 0) == Suspended([])
          case CanceledByRequest => true
          case _ => false)
  }

  /** The clock only times sleeps. */
  lemma {:induction false} ReplayIgnoresClock(h: Handler, journal: seq<StepRow>, pos: nat, now: int, later: int)
    requires pos <= |journal| && SettledTo(journal, pos)
    ensures !ReplayFrom(h, journal, pos, now).Suspended? ==> ReplayFrom(h, journal, pos, later) == ReplayFrom(h, journal, pos, now)
    ensures ReplayFrom(h, journal, pos, now) == Suspended([]) ==> ReplayFrom(h, journal, pos, later) == Suspended([])
    decreases |journal| - pos
  {
    var a := h(Seen(journal, pos));
    if a.Await? && |journal| >= pos + |Wave(a)| && SettledTo(journal, pos + |Wave(a)|) {
      ReplayIgnoresClock(h, journal, pos + |Wave(a)|, now, later);
    }
  }

  /** A replay only looks at a row's name, kind, arguments and state. */
  lemma {:induction false} ReplaySameRows(h: Handler, journal: seq<StepRow>, other: seq<StepRow>, pos: nat, now: int)
    requires pos <= |journal| == |other| && SettledTo(journal, pos)
    requires forall i :: 0 <= i < |journal| ==>
               journal[i].name == other[i].name && journal[i].kind == other[i].kind
               && journal[i].args == other[i].args && journal[i].state == other[i].state
    ensures SettledTo(other, pos) && ReplayFrom(h, other, pos, now) == ReplayFrom(h, journal, pos, now)
    decreases |journal| - pos
  {
    assert Seen(other, pos) == Seen(journal, pos);
    var a := h(Seen(journal, pos));
    if a.Await? {
      assert WaveMatches(Wave(a), other, pos) <==> WaveMatches(Wave(a), journal, pos) by {
        forall i | 0 <= i < Journaled(Wave(a), journal, pos)
          ensures Matches(other[pos + i], Wave(a)[i]) <==> Matches(journal[pos + i], Wave(a)[i])
        {
        }
      }
      if |journal| >= pos + |Wave(a)| && SettledTo(journal, pos + |Wave(a)|) {
        ReplaySameRows(h, journal, other, pos + |Wave(a)|, now);
      }
    }
  }

  lemma SameRowsKeepVerdict(h: Handler, r: Run, s: Run)
    requires Verdict(h, r) && s.wf == r.wf && |s.steps| == |r.steps|
    requires Settled(r.steps) ==> forall i :: 0 <= i < |r.steps| ==>
               r.steps[i].name == s.steps[i].name && r.steps[i].kind == s.steps[i].kind
               && r.steps[i].args == s.steps[i].args && r.steps[i].state == s.steps[i].state
    ensures Verdict(h, s)
  {
    if Settled(r.steps) {
      ReplaySameRows(h, r.steps, s.steps, 0, 0);
    }
  }

  lemma AdvanceKeepsVerdict(h: Handler, maxParallelism: nat, r: Run, now: int)
    requires Shape(h, r.steps) && Verdict(h, r)
    ensures Verdict(h, Advance(h, maxParallelism, r, now))
  {
    if r.wf.state.Running? {
      ReplayOfShape(h, r.steps, 0, now);
      ReplayIgnoresClock(h, r.steps, 0, now, 0);
      var out := Replay(h, r.steps, now);
      if out.Suspended? && !(out.newSteps == [] && Settled(r.steps)) {
        StartStepsRows(r, Capped(out.newSteps, maxParallelism));
      }
    }
  }

  lemma UnwindDoneKeepsVerdict(h: Handler, r: Run, n: nat, gen: nat, result: JobResult, now: int)
    requires Verdict(h, r) && r.wf.state.Compensating?
    ensures Verdict(h, UnwindDone(r, n, gen, result, now))
  {
    var s := UnwindDone(r, n, gen, result, now);
    SameRowsKeepVerdict(h, r, s.(wf := r.wf));
  }

  lemma UnwindKeepsVerdict(h: Handler, r: Run, now: int)
    requires Verdict(h, r) && r.wf.state.Compensating?
    ensures Verdict(h, Unwind(r, now))
  {
    SameRowsKeepVerdict(h, r, Unwind(r, now).(wf := r.wf));
  }

  lemma SendEventKeepsVerdict(h: Handler, r: Run, name: string, payload: Json)
    requires Verdict(h, r) && FindParked(r.steps, name) < |r.steps|
    ensures Verdict(h, SendEvent(r, name, payload))
  {
  }

  lemma StepDoneKeepsVerdict(h: Handler, r: Run, n: nat, gen: nat, result: JobResult)
    requires Verdict(h, r) && (r.wf.generationNumber == gen ==> r.wf.state.Running?)
    ensures Verdict(h, StepDone(r, n, gen, result))
  {
  }

  lemma DeliveryKeepsVerdict(h: Handler, maxParallelism: nat, r: Run, j: nat, now: int)
    requires Inv(h, r) && Verdict(h, r) && Enabled(r, DeliverReport(j, now))
    ensures Verdict(h, Step(h, maxParallelism, r, DeliverReport(j, now)))
  {
    var done := SetPhase(r, j, Delivered);
    assert Verdict(h, done);
    assert JobInv(r, j);
    match r.jobs[j].kind {
      case ForwardJob(n, gen) =>
        StepDoneKeepsVerdict(h, done, n, gen, r.jobs[j].phase.result);
      case UndoJob(n, gen) =>
        UndoIsFrontier(r, j);
        UnwindDoneKeepsVerdict(h, done, n, gen, r.jobs[j].phase.result, now);
      case _ =>
    }
  }

  lemma StepKeepsVerdict(h: Handler, maxParallelism: nat, r: Run, l: Label)
    requires Inv(h, r) && Verdict(h, r)
    ensures Verdict(h, Step(h, maxParallelism, r, l))
  {
    if Enabled(r, l) {
      match l
      case RunJob(j, now) =>
        var done := SetPhase(r, j, Delivered);
        match r.jobs[j].kind {
          case AdvanceJob => AdvanceKeepsVerdict(h, maxParallelism, done, now);
          case UnwindJob =>
            UnwindAtFrontier(r, j);
            UnwindKeepsVerdict(h, done, now);
          case _ =>
        }
      case ClaimJob(j) =>
      case ReportJob(j, result) =>
      case DeliverReport(j, now) => DeliveryKeepsVerdict(h, maxParallelism, r, j, now);
      case RequestCancel(compensate, now) =>
      case Signal(name, payload) =>
        WaitingHasParked(r, name);
        SendEventKeepsVerdict(h, r, name, payload);
    }
  }

  lemma {:induction false} ReachedVerdict(h: Handler, maxParallelism: nat, onComplete: Option<string>, start: int,
                                          labels: seq<Label>)
    requires maxParallelism >= 1
    ensures Verdict(h, Reached(h, maxParallelism, onComplete, start, labels))
  {
    if labels != [] {
      var front := labels[..|labels| - 1];
      ReachedInv(h, maxParallelism, onComplete, start, front);
      ReachedVerdict(h, maxParallelism, onComplete, start, front);
      StepKeepsVerdict(h, maxParallelism, Reached(h, maxParallelism, onComplete, start, front), labels[|labels| - 1]);
    }
  }

  /** The run's result or error is that of running the handler once directly, in the steps of the journal. */
  ghost predicate MeansDirectRun(h: Handler, r: Run, o: Oracle) {
    var direct := RunDirect(h, o, 0, |r.steps|);
    && (r.wf.state.Completed? ==> r.wf.result.Some? && direct == Ended(Return(r.wf.result.value), |r.steps|))
    && (r.wf.state.Failed? || r.wf.state.Compensating? ==>
          && r.wf.error.Some?
          && match RootError(r.wf.error.value)
             case HandlerError(e) => direct == Ended(Throw(e), |r.steps|)
             case StalledOnForeignAwait => direct == Ended(Foreign, |r.steps|)
             case other => other == CanceledByRequest)
  }

  lemma JournalMeansDirectRun(h: Handler, maxParallelism: nat, onComplete: Option<string>, start: int,
                              labels: seq<Label>, o: Oracle)
    requires maxParallelism >= 1
    requires Consistent(o, Reached(h, maxParallelism, onComplete, start, labels).steps)
    ensures MeansDirectRun(h, Reached(h, maxParallelism, onComplete, start, labels), o)
  {
    var r := Reached(h, maxParallelism, onComplete, start, labels);
    ReachedInv(h, maxParallelism, onComplete, start, labels);
    ReachedVerdict(h, maxParallelism, onComplete, start, labels);
    ReplayIsDirect(h, r.steps, 0, o, 0);
  }

  // ---------------------------------------------------------------- never stranded, and final

  /**
   No run is stranded. A running run has a queued `_advance`, or a pending step whose job (or the
   job's undelivered callback) carries the current generation, or a waiting event with its step;
   a compensating run has exactly one live unwind token, any other run none.
   */
  lemma NeverStranded(h: Handler, maxParallelism: nat, onComplete: Option<string>, start: int, labels: seq<Label>)
    requires maxParallelism >= 1
    ensures var r := Reached(h, maxParallelism, onComplete, start, labels);
            && (r.wf.state.Running? ==>
                  || (exists j :: 0 <= j < |r.jobs| && r.jobs[j].kind.AdvanceJob? && r.jobs[j].phase.Queued?)
                  || (exists j :: 0 <= j < |r.jobs| && r.jobs[j].kind.ForwardJob? && !r.jobs[j].phase.Delivered?
                        && r.jobs[j].kind.gen == r.wf.generationNumber)
                  || (exists e :: 0 <= e < |r.events| && r.events[e].state.Waiting? && FindParked(r.steps, r.events[e].name) < |r.steps|))
            && Sum(r.jobs, TokenWeight()) == if r.wf.state.Compensating? then 1 else 0
  {
    var r := Reached(h, maxParallelism, onComplete, start, labels);
    ReachedInv(h, maxParallelism, onComplete, start, labels);
    if r.wf.state.Running? && !Settled(r.steps) {
      var i :| 0 <= i < |r.steps| && r.steps[i].state.Pending?;
      assert StepInv(r, i);
      if r.steps[i].kind.WaitForEvent? {
        var name := r.steps[i].name;
        SumBound(r.steps, ParkedWeight(name), i);
        var e := SumWitness(r.events, WaitingWeight(name));
        assert IsParked(r.steps[i], name);
      }
    }
  }

  /**
   The bound in `NeverStranded` is exact: under a fan-out cap of zero any handler that starts with
   an await is stranded by its first poll, with nothing left to happen but a cancel.
   */
  lemma StrandedWithoutParallelism(h: Handler, start: int)
    requires h([]).Await?
    ensures var r := Reached(h, 0, None, start, [RunJob(0, start)]);
            r.wf.state.Running? && r.steps == [] && r.events == [] && forall l :: Enabled(r, l) ==> l.RequestCancel?
  {
    var r0 := Initial(None, start);
    var labels := [RunJob(0, start)];
    assert labels[..0] == [];
    assert Exec(h, 0, r0, labels) == Step(h, 0, Exec(h, 0, r0, labels[..0]), labels[0]);
    assert Seen([], 0) == [];
    assert Replay(h, [], start).Suspended? && Replay(h, [], start).newSteps != [];
    assert Capped(Replay(h, [], start).newSteps, 0) == [];
    assert Reached(h, 0, None, start, labels) == SetPhase(r0, 0, Delivered);
  }

  /** Terminal is final: with every callback delivered once, no step changes a terminal row. */
  lemma TerminalIsFinal(h: Handler, maxParallelism: nat, r: Run, l: Label)
    requires Inv(h, r) && Terminal(r.wf.state)
    ensures Step(h, maxParallelism, r, l).wf == r.wf
  {
    if Enabled(r, l) && l.RunJob? && r.jobs[l.job].kind.UnwindJob? {
      SumBound(r.jobs, TokenWeight(), l.job);
    } else if Enabled(r, l) && l.DeliverReport? {
      assert JobInv(r, l.job);
      if r.jobs[l.job].kind.UndoJob? {
        SumBound(r.jobs, TokenWeight(), l.job);
      }
    }
  }

  /** The run's own callback: exactly one job once the run is terminal, none before. */
  lemma NotifiedExactlyOnce(h: Handler, maxParallelism: nat, path: string, start: int, labels: seq<Label>)
    requires maxParallelism >= 1
    ensures var r := Reached(h, maxParallelism, Some(path), start, labels);
            Sum(r.jobs, NoticeWeight()) == if Terminal(r.wf.state) then 1 else 0
  {
    ReachedInv(h, maxParallelism, Some(path), start, labels);
    OnCompleteIsFixed(h, maxParallelism, Some(path), start, labels);
  }

  lemma {:induction false} OnCompleteIsFixed(h: Handler, maxParallelism: nat, onComplete: Option<string>,
                                             start: int, labels: seq<Label>)
    ensures Reached(h, maxParallelism, onComplete, start, labels).wf.onComplete == onComplete
  {
    if labels != [] {
      var front := labels[..|labels| - 1];
      OnCompleteIsFixed(h, maxParallelism, onComplete, start, front);
      var r, l := Reached(h, maxParallelism, onComplete, start, front), labels[|labels| - 1];
      if Enabled(r, l) && l.RunJob? && r.jobs[l.job].kind.AdvanceJob? && r.wf.state.Running? {
        var done := SetPhase(r, l.job, Delivered);
        var out := Replay(h, done.steps, l.now);
        if out.Suspended? {
          StartStepsRows(done, Capped(out.newSteps, maxParallelism));
        }
      }
    }
  }

  // ---------------------------------------------------------------- events

  /** The first waiting row of the name has received the payload, and no other row has changed. */
  ghost predicate Receives(before: seq<EventRow>, after: seq<EventRow>, name: string, payload: Json) {
    exists e :: 0 <= e < |before| && IsWaiting(before[e], name) && (forall k :: 0 <= k < e ==> !IsWaiting(before[k], name))
                && after == before[e := EventRow(name, Received(payload))]
  }

  /**
   Sending an event with a waiter resolves exactly one step, the first one parked under that name,
   with the payload, uses up exactly one waiting row, and queues one `_advance`; without a waiter
   nothing changes.
   */
  lemma SendEventResolvesOne(h: Handler, r: Run, name: string, payload: Json)
    requires Inv(h, r)
    ensures var s := SendEvent(r, name, payload);
            && (Sum(r.events, WaitingWeight(name)) == 0 ==> s == r)
            && (Sum(r.events, WaitingWeight(name)) > 0 ==>
                  var i := FindParked(r.steps, name);
                  && i < |r.steps| && IsParked(r.steps[i], name) && (forall k :: 0 <= k < i ==> !IsParked(r.steps[k], name))
                  && s.steps == r.steps[i := r.steps[i].(state := Success(payload))]
                  && s.wf == r.wf && s.jobs == r.jobs + [ADVANCE] && Receives(r.events, s.events, name, payload)
                  && Sum(s.events, WaitingWeight(name)) == Sum(r.events, WaitingWeight(name)) - 1
                  && Sum(s.steps, ParkedWeight(name)) == Sum(r.steps, ParkedWeight(name)) - 1)
  {
    var s := SendEvent(r, name, payload);
    var e := FindWaiting(r.events, name);
    if e < |r.events| {
      SumBound(r.events, WaitingWeight(name), e);
      WaitingHasParked(r, name);
      var i := FindParked(r.steps, name);
      assert s.events == r.events[e := EventRow(name, Received(payload))];
      SumUpdate(r.events, e, s.events[e], WaitingWeight(name));
      SumUpdate(r.steps, i, s.steps[i], ParkedWeight(name));
    } else if Sum(r.events, WaitingWeight(name)) > 0 {
      var k := SumWitness(r.events, WaitingWeight(name));
    }
  }

  /** Pairing over whole runs: for every name, as many waiting events as pending event steps. */
  lemma EventsPaired(h: Handler, maxParallelism: nat, onComplete: Option<string>, start: int, labels: seq<Label>,
                     name: string)
    requires maxParallelism >= 1
    ensures var r := Reached(h, maxParallelism, onComplete, start, labels);
            Sum(r.events, WaitingWeight(name)) == Sum(r.steps, ParkedWeight(name))
  {
    ReachedInv(h, maxParallelism, onComplete, start, labels);
  }
}
