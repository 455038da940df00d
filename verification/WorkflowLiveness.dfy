/**
 Runs end. Every effective step lowers a measure bounded by the length of the handler's direct
 run, and a run that can do nothing more is terminal; so every maximal run reaches its verdict.
 */
module WorkflowLiveness {
  import opened Prelude
  import opened Sums
  import opened WorkflowTypes
  import opened WorkflowReplay
  import opened WorkflowMachine
  import opened WorkflowRuns
  import opened WorkflowInvariant
  import opened WorkflowTheorems
  import opened WorkflowReports

  /** What is still to come for a row: its event, and its compensation. */
  function RowWeight(): StepRow -> nat {
    (s: StepRow) => (if s.kind.WaitForEvent? && s.state.Pending? then 3 else 0) + (if s.compensationJobId.None? then 6 else 0)
  }

  /** What is still to come for a job: its claim, its report, its callback. */
  function JobWeight(): Job -> nat {
    (job: Job) =>
      match job.kind
      case ForwardJob(_, _) => (match job.phase case Queued => 4 case Claimed => 3 case Reported(_) => 2 case Delivered => 0)
      case UndoJob(_, _) => (match job.phase case Queued => 5 case Claimed => 4 case Reported(_) => 3 case Delivered => 0)
      case UnwindJob => if job.phase.Queued? then 2 else 0
      case _ => if job.phase.Queued? then 1 else 0
  }

  /** An upper bound on the effective steps left, for a handler that takes at most `budget` steps. */
  function Measure(r: Run, budget: nat): nat
    requires |r.steps| <= budget
  {
    10 * (budget - |r.steps|) + (if r.wf.state.Running? then 3 else 0) + Sum(r.steps, RowWeight()) + Sum(r.jobs, JobWeight())
  }

  // ---------------------------------------------------------------- each step lowers the measure

  lemma PhaseLowers(r: Run, j: nat, p: Phase)
    requires j < |r.jobs|
    ensures Sum(SetPhase(r, j, p).jobs, JobWeight()) + JobWeight()(r.jobs[j])
            == Sum(r.jobs, JobWeight()) + JobWeight()(r.jobs[j].(phase := p))
  {
    SumUpdate(r.jobs, j, r.jobs[j].(phase := p), JobWeight());
  }

  lemma NotifyAdds(r: Run, notice: Notice, now: int)
    ensures var s := Notify(r, notice, now);
            s.steps == r.steps && s.wf == r.wf && Sum(s.jobs, JobWeight()) <= Sum(r.jobs, JobWeight()) + 1
  {
    if r.wf.onComplete.Some? {
      SumSnoc(r.jobs, Notify(r, notice, now).jobs[|r.jobs|], JobWeight());
    }
  }

  lemma FailOrCompensateAdds(r: Run, error: WfError, target: Target, now: int)
    ensures var s := FailOrCompensate(r, error, target, now);
            s.steps == r.steps && !s.wf.state.Running? && Sum(s.jobs, JobWeight()) <= Sum(r.jobs, JobWeight()) + 2
  {
    if !AnyOwed(r.steps) {
      NotifyAdds(r.(wf := r.wf.(state := TerminalFor(target), error := Some(error))), NoticeFor(target, error), now);
    } else {
      SumSnoc(r.jobs, UNWIND, JobWeight());
    }
  }

  lemma StartStepAdds(r: Run, ns: NewStep)
    ensures var s := StartStep(r, ns);
            && |s.steps| == |r.steps| + 1 && s.wf == r.wf
            && Sum(s.steps, RowWeight()) + Sum(s.jobs, JobWeight()) <= Sum(r.steps, RowWeight()) + Sum(r.jobs, JobWeight()) + 10
  {
    SumSnoc(r.steps, StartStep(r, ns).steps[|r.steps|], RowWeight());
    if !ns.kind.WaitForEvent? {
      SumSnoc(r.jobs, ForwardFor(ns, r.wf.generationNumber), JobWeight());
    }
  }

  lemma {:induction false} StartStepsAdds(r: Run, ns: seq<NewStep>)
    ensures var s := StartSteps(r, ns);
            && |s.steps| == |r.steps| + |ns| && s.wf == r.wf
            && Sum(s.steps, RowWeight()) + Sum(s.jobs, JobWeight()) <= Sum(r.steps, RowWeight()) + Sum(r.jobs, JobWeight()) + 10 * |ns|
    decreases |ns|
  {
    if ns != [] {
      StartStepsAdds(r, ns[..|ns| - 1]);
      StartStepAdds(StartSteps(r, ns[..|ns| - 1]), ns[|ns| - 1]);
    }
  }

  lemma AdvanceAdds(h: Handler, maxParallelism: nat, r: Run, now: int, budget: nat)
    requires |r.steps| <= budget && |Advance(h, maxParallelism, r, now).steps| <= budget
    ensures Measure(Advance(h, maxParallelism, r, now), budget) <= Measure(r, budget)
  {
    if r.wf.state.Running? {
      match Replay(h, r.steps, now)
      case Finished(v) =>
        NotifyAdds(r.(wf := r.wf.(state := Completed, result := Some(v))), SucceededWith(v), now);
      case Threw(e) => FailOrCompensateAdds(r, e, ToFailed, now);
      case Suspended(ns) =>
        if ns == [] && Settled(r.steps) {
          FailOrCompensateAdds(r, StalledOnForeignAwait, ToFailed, now);
        } else {
          StartStepsAdds(r, Capped(ns, maxParallelism));
        }
    }
  }

  lemma UnwindLowers(r: Run, j: nat, now: int, budget: nat)
    requires Core(r) && j < |r.jobs| && r.jobs[j].kind.UnwindJob? && r.jobs[j].phase.Queued? && |r.steps| <= budget
    ensures Measure(Unwind(SetPhase(r, j, Delivered), now), budget) < Measure(r, budget)
  {
    UnwindAtFrontier(r, j);
    var done := SetPhase(r, j, Delivered);
    PhaseLowers(r, j, Delivered);
    var next := HighestOwed(r.steps);
    if next.None? {
      var target := if r.wf.compensationTarget == Some(ToCanceled) then ToCanceled else ToFailed;
      NotifyAdds(done.(wf := r.wf.(state := TerminalFor(target))), if target.ToCanceled? then WasCanceled else FailedWith(ErrorOf(r.wf)), now);
    } else {
      var m := next.value;
      NextUndo(r, m);
      SumUpdate(r.steps, m, r.steps[m].(compensationJobId := Some(|r.jobs|)), RowWeight());
      SumSnoc(done.jobs, UndoFor(r.steps[m], r.wf.generationNumber), JobWeight());
    }
  }

  lemma StepDoneLowers(r: Run, j: nat, budget: nat)
    requires Linked(r) && j < |r.jobs| && r.jobs[j].kind.ForwardJob? && r.jobs[j].phase.Reported? && |r.steps| <= budget
    ensures var job := r.jobs[j].kind;
            var s := StepDone(SetPhase(r, j, Delivered), job.step, job.gen, r.jobs[j].phase.result);
            |s.steps| == |r.steps| && Measure(s, budget) < Measure(r, budget)
  {
    var n := r.jobs[j].kind.step;
    assert JobInv(r, j) && StepInv(r, n);
    FindStepIs(r, n);
    PhaseLowers(r, j, Delivered);
    SumUpdate(r.steps, n, r.steps[n].(state := StateFor(r.jobs[j].phase.result)), RowWeight());
    SumSnoc(SetPhase(r, j, Delivered).jobs, ADVANCE, JobWeight());
  }

  lemma UnwindDoneLowers(r: Run, j: nat, now: int, budget: nat)
    requires Core(r) && j < |r.jobs| && r.jobs[j].kind.UndoJob? && r.jobs[j].phase.Reported? && |r.steps| <= budget
    ensures var job := r.jobs[j].kind;
            var s := UnwindDone(SetPhase(r, j, Delivered), job.step, job.gen, r.jobs[j].phase.result, now);
            |s.steps| == |r.steps| && Measure(s, budget) < Measure(r, budget)
  {
    UndoIsFrontier(r, j);
    FindStepIs(r, r.jobs[j].kind.step);
    ReportedUndoLowers(r, j, r.jobs[j].kind.step, now, budget);
  }

  lemma ReportedUndoLowers(r: Run, j: nat, n: nat, now: int, budget: nat)
    requires j < |r.jobs| && r.jobs[j].kind == UndoJob(n, r.wf.generationNumber) && r.jobs[j].phase.Reported?
    requires n < |r.steps| <= budget && FindStep(r.steps, n) == n && !r.wf.state.Running?
    ensures var s := UnwindDone(SetPhase(r, j, Delivered), n, r.wf.generationNumber, r.jobs[j].phase.result, now);
            |s.steps| == |r.steps| && Measure(s, budget) < Measure(r, budget)
  {
    var result := r.jobs[j].phase.result;
    PhaseLowers(r, j, Delivered);
    var done := SetPhase(r, j, Delivered);
    if result.JobOk? {
      SumUpdate(r.steps, n, r.steps[n].(compensated := true), RowWeight());
      SumSnoc(done.jobs, UNWIND, JobWeight());
    } else {
      NotifyAdds(done.(wf := r.wf.(state := Failed, error := Some(UndoFailed(n, CauseOf(result), r.wf.error)))), FailedWith(UndoFailedAt(n)), now);
    }
  }

  lemma {:induction false} CascadeLowers(steps: seq<StepRow>, n: nat, jobs: seq<Job>)
    requires n <= |steps|
    ensures Sum(CancelJobsOf(steps, n, jobs), JobWeight()) <= Sum(jobs, JobWeight())
  {
    if n > 0 {
      CascadeLowers(steps, n - 1, jobs);
      var before := CancelJobsOf(steps, n - 1, jobs);
      var s := steps[n - 1];
      var forward := if s.state.Pending? then CancelJob(before, s.scheduledJobId) else before;
      CancelJobLowers(before, s.scheduledJobId);
      CancelJobLowers(forward, s.compensationJobId);
    }
  }

  lemma CancelJobLowers(jobs: seq<Job>, id: Option<nat>)
    ensures Sum(CancelJob(jobs, id), JobWeight()) <= Sum(jobs, JobWeight())
  {
    if id.Some? && id.value < |jobs| && jobs[id.value].phase.Queued? {
      SumUpdate(jobs, id.value, jobs[id.value].(phase := Reported(JobCanceled)), JobWeight());
    }
  }

  lemma CancelLowers(r: Run, compensate: bool, now: int, budget: nat)
    requires r.wf.state.Running? && |r.steps| <= budget
    ensures var s := CancelRun(r, compensate, now); |s.steps| == |r.steps| && Measure(s, budget) < Measure(r, budget)
  {
    CascadeLowers(r.steps, |r.steps|, r.jobs);
    var c := r.(jobs := CancelJobsOf(r.steps, |r.steps|, r.jobs));
    var wf := r.wf.(generationNumber := r.wf.generationNumber + 1);
    NotifyAdds(c.(wf := wf.(state := Canceled)), WasCanceled, now);
    SumSnoc(c.jobs, UNWIND, JobWeight());
  }

  lemma SendEventLowers(r: Run, name: string, payload: Json, budget: nat)
    requires Paired(r) && FindWaiting(r.events, name) < |r.events| && |r.steps| <= budget
    ensures var s := SendEvent(r, name, payload); |s.steps| == |r.steps| && Measure(s, budget) < Measure(r, budget)
  {
    WaitingHasParked(r, name);
    var i := FindParked(r.steps, name);
    SumUpdate(r.steps, i, r.steps[i].(state := Success(payload)), RowWeight());
    SumSnoc(r.jobs, ADVANCE, JobWeight());
  }

  lemma StepLowers(h: Handler, maxParallelism: nat, r: Run, l: Label, budget: nat)
    requires Inv(h, r) && Enabled(r, l) && |r.steps| <= budget && |Step(h, maxParallelism, r, l).steps| <= budget
    ensures Measure(Step(h, maxParallelism, r, l), budget) < Measure(r, budget)
  {
    match l
    case RunJob(j, now) =>
      PhaseLowers(r, j, Delivered);
      match r.jobs[j].kind {
        case AdvanceJob => AdvanceAdds(h, maxParallelism, SetPhase(r, j, Delivered), now, budget);
        case UnwindJob => UnwindLowers(r, j, now, budget);
        case _ =>
      }
    case ClaimJob(j) => PhaseLowers(r, j, Claimed);
    case ReportJob(j, result) =>
      assert JobInv(r, j);
      PhaseLowers(r, j, Reported(result));
    case DeliverReport(j, now) =>
      assert JobInv(r, j);
      if r.jobs[j].kind.ForwardJob? {
        StepDoneLowers(r, j, budget);
      } else {
        UnwindDoneLowers(r, j, now, budget);
      }
    case RequestCancel(compensate, now) => CancelLowers(r, compensate, now, budget);
    case Signal(name, payload) => SendEventLowers(r, name, payload, budget);
  }

  // ---------------------------------------------------------------- the journal stays within the direct run

  lemma {:induction false} ShapeWithinRun(h: Handler, journal: seq<StepRow>, pos: nat, o: Oracle, budget: nat)
    requires pos <= |journal| && SettledTo(journal, pos) && ShapeFrom(h, journal, pos) && Consistent(o, journal)
    requires RunDirect(h, o, pos, budget).Ended? && pos <= budget
    ensures |journal| <= budget
    decreases |journal| - pos
  {
    SeenIsHistory(o, journal, pos);
    var a := h(Seen(journal, pos));
    if a.Await? && |journal| > pos + |Wave(a)| {
      ShapeWithinRun(h, journal, pos + |Wave(a)|, o, budget);
    }
  }

  /** Settled rows stay as they are, and rows are never dropped. */
  ghost predicate Grows(before: seq<StepRow>, after: seq<StepRow>) {
    && |before| <= |after|
    && (forall i :: 0 <= i < |before| && !before[i].state.Pending? ==> after[i].state == before[i].state)
  }

  lemma StepGrows(h: Handler, maxParallelism: nat, r: Run, l: Label)
    requires Inv(h, r)
    ensures Grows(r.steps, Step(h, maxParallelism, r, l).steps)
  {
    if Enabled(r, l) {
      if l.RunJob? && r.jobs[l.job].kind.AdvanceJob? {
        AdvanceGrows(h, maxParallelism, SetPhase(r, l.job, Delivered), l.now);
      } else if l.DeliverReport? {
        assert JobInv(r, l.job);
        if r.jobs[l.job].kind.ForwardJob? {
          assert StepInv(r, r.jobs[l.job].kind.step);
          FindStepIs(r, r.jobs[l.job].kind.step);
        }
      }
    }
  }

  lemma AdvanceGrows(h: Handler, maxParallelism: nat, r: Run, now: int)
    ensures Grows(r.steps, Advance(h, maxParallelism, r, now).steps)
  {
    var out := Replay(h, r.steps, now);
    if r.wf.state.Running? && out.Suspended? {
      StartStepsRows(r, Capped(out.newSteps, maxParallelism));
      var longer := StartSteps(r, Capped(out.newSteps, maxParallelism)).steps;
      assert forall i :: 0 <= i < |r.steps| ==> longer[i] == longer[..|r.steps|][i];
    }
  }

  /** Every label has an effect when its turn comes. */
  predicate Effective(h: Handler, maxParallelism: nat, r: Run, labels: seq<Label>) {
    labels == []
    || (Effective(h, maxParallelism, r, labels[..|labels| - 1])
        && Enabled(Exec(h, maxParallelism, r, labels[..|labels| - 1]), labels[|labels| - 1]))
  }

  /**
   Runs are finite: if the handler, run directly under an oracle that agrees with the journal, ends
   within `budget` steps, a run with any mix of callbacks, events and cancels takes at most
   `10 * budget + 4` effective steps.
   */
  lemma {:induction false} RunsEnd(h: Handler, maxParallelism: nat, onComplete: Option<string>, start: int,
                                   labels: seq<Label>, o: Oracle, budget: nat)
    requires maxParallelism >= 1
    requires Effective(h, maxParallelism, Initial(onComplete, start), labels)
    requires RunDirect(h, o, 0, budget).Ended?
    requires Consistent(o, Reached(h, maxParallelism, onComplete, start, labels).steps)
    ensures var r := Reached(h, maxParallelism, onComplete, start, labels);
            |r.steps| <= budget && |labels| + Measure(r, budget) <= 10 * budget + 4
  {
    var r := Reached(h, maxParallelism, onComplete, start, labels);
    ReachedInv(h, maxParallelism, onComplete, start, labels);
    ShapeWithinRun(h, r.steps, 0, o, budget);
    if labels == [] {
      SumSnoc([], r.jobs[0], JobWeight());
      assert [] + [r.jobs[0]] == r.jobs;
    } else {
      var front := labels[..|labels| - 1];
      var before := Reached(h, maxParallelism, onComplete, start, front);
      ReachedInv(h, maxParallelism, onComplete, start, front);
      StepGrows(h, maxParallelism, before, labels[|labels| - 1]);
      RunsEnd(h, maxParallelism, onComplete, start, front, o, budget);
      StepLowers(h, maxParallelism, before, labels[|labels| - 1], budget);
    }
  }

  /** A run that is not terminal can go on without being canceled. */
  lemma SomethingCanHappen(h: Handler, r: Run) returns (l: Label)
    requires Inv(h, r) && !Terminal(r.wf.state)
    ensures Enabled(r, l) && !l.RequestCancel?
  {
    if r.wf.state.Compensating? {
      var j := SumWitness(r.jobs, TokenWeight());
      l := if r.jobs[j].kind.UnwindJob? then RunJob(j, 0) else NextOf(r, j);
    } else if Settled(r.steps) {
      var j :| 0 <= j < |r.jobs| && r.jobs[j].kind.AdvanceJob? && r.jobs[j].phase.Queued?;
      l := RunJob(j, 0);
    } else {
      var i :| 0 <= i < |r.steps| && r.steps[i].state.Pending?;
      assert StepInv(r, i);
      var name := r.steps[i].name;
      if r.steps[i].kind.WaitForEvent? {
        assert IsParked(r.steps[i], name);
        SumBound(r.steps, ParkedWeight(name), i);
        var e := SumWitness(r.events, WaitingWeight(name));
        l := Signal(name, "");
      } else {
        l := NextOf(r, r.steps[i].scheduledJobId.value);
      }
    }
  }

  /** The next thing to happen to a step's or a compensation's job. */
  function NextOf(r: Run, j: nat): (l: Label)
    requires j < |r.jobs| && !Internal(r.jobs[j].kind) && !r.jobs[j].phase.Delivered?
    ensures Enabled(r, l) && !l.RequestCancel?
  {
    match r.jobs[j].phase
    case Queued => ClaimJob(j)
    case Claimed => ReportJob(j, JobFailed(""))
    case Reported(_) => DeliverReport(j, 0)
  }

  /** A run that can do nothing but be canceled is terminal. */
  lemma QuiescentIsTerminal(h: Handler, r: Run)
    requires Inv(h, r) && forall l :: Enabled(r, l) ==> l.RequestCancel?
    ensures Terminal(r.wf.state)
  {
    if !Terminal(r.wf.state) {
      var _ := SomethingCanHappen(h, r);
    }
  }

  /** Without a cancel nothing about a run says `canceled`. */
  ghost predicate NeverCanceled(r: Run) {
    && !r.wf.state.Canceled? && r.wf.compensationTarget != Some(ToCanceled)
    && (r.wf.error.Some? ==> RootError(r.wf.error.value) != CanceledByRequest)
  }

  lemma AdvanceNeverCancels(h: Handler, maxParallelism: nat, r: Run, now: int)
    requires Shape(h, r.steps) && NeverCanceled(r)
    ensures NeverCanceled(Advance(h, maxParallelism, r, now))
  {
    if r.wf.state.Running? {
      ReplayOfShape(h, r.steps, 0, now);
      var out := Replay(h, r.steps, now);
      if out.Suspended? {
        StartStepsRows(r, Capped(out.newSteps, maxParallelism));
      }
    }
  }

  lemma UnwindDoneNeverCancels(r: Run, n: nat, gen: nat, result: JobResult, now: int)
    requires NeverCanceled(r) && r.wf.error.Some?
    ensures NeverCanceled(UnwindDone(r, n, gen, result, now))
  {
  }

  lemma StepNeverCancels(h: Handler, maxParallelism: nat, r: Run, l: Label)
    requires Inv(h, r) && NeverCanceled(r) && !l.RequestCancel?
    requires r.wf.state.Compensating? ==> r.wf.error.Some?
    ensures NeverCanceled(Step(h, maxParallelism, r, l))
  {
    if Enabled(r, l) {
      if l.RunJob? && r.jobs[l.job].kind.AdvanceJob? {
        AdvanceNeverCancels(h, maxParallelism, SetPhase(r, l.job, Delivered), l.now);
      } else if l.DeliverReport? && r.jobs[l.job].kind.UndoJob? {
        UndoIsFrontier(r, l.job);
        var job := r.jobs[l.job];
        UnwindDoneNeverCancels(SetPhase(r, l.job, Delivered), job.kind.step, job.kind.gen, job.phase.result, l.now);
      }
    }
  }

  lemma {:induction false} UncanceledRun(h: Handler, maxParallelism: nat, onComplete: Option<string>, start: int,
                                         labels: seq<Label>)
    requires maxParallelism >= 1 && forall i :: 0 <= i < |labels| ==> !labels[i].RequestCancel?
    ensures NeverCanceled(Reached(h, maxParallelism, onComplete, start, labels))
  {
    if labels != [] {
      var front := labels[..|labels| - 1];
      ReachedInv(h, maxParallelism, onComplete, start, front);
      ReachedVerdict(h, maxParallelism, onComplete, start, front);
      UncanceledRun(h, maxParallelism, onComplete, start, front);
      StepNeverCancels(h, maxParallelism, Reached(h, maxParallelism, onComplete, start, front), labels[|labels| - 1]);
    }
  }

  /**
   Total correctness of durable execution. Take any run that is not canceled and has nothing left
   to do, and any oracle that answers what its steps were reported to have come to and under which
   the handler, run once directly, ends. Then the run is terminal, its journal holds exactly the steps of the direct run,
   and it completed with the direct result if and only if the direct run returned; otherwise it
   failed, for the direct run's error.
   */
  lemma MaximalRunsAgree(h: Handler, maxParallelism: nat, onComplete: Option<string>, start: int,
                         labels: seq<Label>, o: Oracle, budget: nat)
    requires maxParallelism >= 1 && forall i :: 0 <= i < |labels| ==> !labels[i].RequestCancel?
    requires Agrees(h, maxParallelism, onComplete, start, labels, o)
    requires RunDirect(h, o, 0, budget).Ended?
    requires forall l :: Enabled(Reached(h, maxParallelism, onComplete, start, labels), l) ==> l.RequestCancel?
    ensures var r := Reached(h, maxParallelism, onComplete, start, labels);
            var direct := RunDirect(h, o, 0, budget);
            && direct.taken == |r.steps|
            && (forall v :: direct.last == Return(v) <==> r.wf.state.Completed? && r.wf.result == Some(v))
            && (!direct.last.Return? ==>
                  && r.wf.state.Failed? && r.wf.error.Some?
                  && RootError(r.wf.error.value) == if direct.last.Throw? then HandlerError(direct.last.error) else StalledOnForeignAwait)
  {
    var r := Reached(h, maxParallelism, onComplete, start, labels);
    ReachedInv(h, maxParallelism, onComplete, start, labels);
    QuiescentIsTerminal(h, r);
    UncanceledRun(h, maxParallelism, onComplete, start, labels);
    AgreesIsConsistent(h, maxParallelism, onComplete, start, labels, o);
    RunsMeanDirectRuns(h, maxParallelism, onComplete, start, labels, o);
    ShapeWithinRun(h, r.steps, 0, o, budget);
    BudgetMonotone(h, o, 0, |r.steps|, budget);
  }
}
