/** What a run tells when it ends, and what the reports of its compensations did to it. */
module WorkflowOutcomes {
  import opened Prelude
  import opened Sums
  import opened WorkflowTypes
  import opened WorkflowReplay
  import opened WorkflowMachine
  import opened WorkflowRuns
  import opened WorkflowInvariant
  import opened WorkflowTheorems
  import opened WorkflowReports

  // ---------------------------------------------------------------- the run's own callback

  /** The notice tells the outcome on the row, to the run's own handler. */
  predicate NoticeFits(wf: Workflow, job: Job)
    requires job.kind.NotifyJob?
  {
    && wf.onComplete == Some(job.kind.path) && job.fnPath == job.kind.path
    && match wf.state
       case Completed => wf.result.Some? && job.kind.notice == SucceededWith(wf.result.value)
       case Canceled => job.kind.notice == WasCanceled
       case Failed =>
         && wf.error.Some?
         && job.kind.notice == FailedWith(if wf.error.value.UndoFailed? then UndoFailedAt(wf.error.value.step) else wf.error.value)
       case _ => false
  }

  ghost predicate NoticesFit(r: Run) {
    && (forall j :: 0 <= j < |r.jobs| && r.jobs[j].kind.NotifyJob? ==> NoticeFits(r.wf, r.jobs[j]))
    && (r.wf.state.Compensating? ==> r.wf.error.Some? && !r.wf.error.value.UndoFailed?)
  }

  lemma {:induction false} StartStepsNotices(r: Run, ns: seq<NewStep>)
    requires forall j :: 0 <= j < |r.jobs| ==> !r.jobs[j].kind.NotifyJob?
    ensures var s := StartSteps(r, ns); s.wf == r.wf && forall j :: 0 <= j < |s.jobs| ==> !s.jobs[j].kind.NotifyJob?
    decreases |ns|
  {
    if ns != [] {
      StartStepsNotices(r, ns[..|ns| - 1]);
    }
  }

  lemma FailNotices(r: Run, error: WfError, now: int)
    requires (forall j :: 0 <= j < |r.jobs| ==> !r.jobs[j].kind.NotifyJob?) && !error.UndoFailed?
    ensures NoticesFit(FailOrCompensate(r, error, ToFailed, now))
  {
  }

  /** A run that is going on has told nothing yet. */
  lemma NoNotices(r: Run)
    requires NoticesFit(r) && !Terminal(r.wf.state)
    ensures forall j :: 0 <= j < |r.jobs| ==> !r.jobs[j].kind.NotifyJob?
  {
  }

  lemma AdvanceNotices(h: Handler, maxParallelism: nat, r: Run, now: int)
    requires Shape(h, r.steps) && NoticesFit(r)
    ensures NoticesFit(Advance(h, maxParallelism, r, now))
  {
    if r.wf.state.Running? {
      NoNotices(r);
      ReplayOfShape(h, r.steps, 0, now);
      match Replay(h, r.steps, now)
      case Finished(v) =>
      case Threw(e) => FailNotices(r, e, now);
      case Suspended(ns) =>
        if ns == [] && Settled(r.steps) {
          FailNotices(r, StalledOnForeignAwait, now);
        } else {
          StartStepsNotices(r, Capped(ns, maxParallelism));
        }
    }
  }

  lemma UnwindNotices(r: Run, now: int)
    requires NoticesFit(r)
    ensures NoticesFit(Unwind(r, now))
  {
    if r.wf.state.Compensating? {
      NoNotices(r);
    }
  }

  lemma CancelNotices(r: Run, compensate: bool, now: int)
    requires Linked(r) && NoticesFit(r) && r.wf.state.Running?
    ensures NoticesFit(CancelRun(r, compensate, now))
  {
    NoNotices(r);
    CascadeCancelsForwardJobs(r, |r.steps|);
    var jobs := CancelJobsOf(r.steps, |r.steps|, r.jobs);
    assert forall j :: 0 <= j < |jobs| ==> CanceledOrSame(r.jobs[j], jobs[j]);
  }

  lemma DeliveryNotices(h: Handler, maxParallelism: nat, r: Run, j: nat, now: int)
    requires Inv(h, r) && NoticesFit(r) && Enabled(r, DeliverReport(j, now))
    ensures NoticesFit(Step(h, maxParallelism, r, DeliverReport(j, now)))
  {
    var done := SetPhase(r, j, Delivered);
    assert NoticesFit(done);
    if r.jobs[j].kind.UndoJob? {
      UndoIsFrontier(r, j);
      NoNotices(done);
    }
  }

  lemma StepNotices(h: Handler, maxParallelism: nat, r: Run, l: Label)
    requires Inv(h, r) && NoticesFit(r)
    ensures NoticesFit(Step(h, maxParallelism, r, l))
  {
    if Enabled(r, l) {
      match l
      case RunJob(j, now) =>
        var done := SetPhase(r, j, Delivered);
        assert NoticesFit(done);
        AdvanceNotices(h, maxParallelism, done, now);
        UnwindNotices(done, now);
      case DeliverReport(j, now) => DeliveryNotices(h, maxParallelism, r, j, now);
      case RequestCancel(compensate, now) => CancelNotices(r, compensate, now);
      case _ =>
    }
  }

  /**
   Whatever the run's own callback is told is what the row says: the result of a completed run, the
   error of a failed one, the step at which an unwind halted, or that it was canceled.
   */
  lemma {:induction false} NoticesAlwaysFit(h: Handler, maxParallelism: nat, onComplete: Option<string>, start: int, labels: seq<Label>)
    requires maxParallelism >= 1
    ensures NoticesFit(Reached(h, maxParallelism, onComplete, start, labels))
  {
    if labels != [] {
      var front := labels[..|labels| - 1];
      ReachedInv(h, maxParallelism, onComplete, start, front);
      NoticesAlwaysFit(h, maxParallelism, onComplete, start, front);
      StepNotices(h, maxParallelism, Reached(h, maxParallelism, onComplete, start, front), labels[|labels| - 1]);
    }
  }

  // ---------------------------------------------------------------- compensations that report

  function CauseText(result: JobResult): string {
    match result
    case JobOk(_) => ""
    case JobFailed(e) => e
    case JobCanceled => "canceled"
  }

  /** A delivered compensation has marked its step if it succeeded, and halted the run with its error if not. */
  predicate UndoTold(r: Run, j: nat, result: JobResult)
    requires j < |r.jobs| && r.jobs[j].kind.UndoJob?
  {
    var n := r.jobs[j].kind.step;
    && n < |r.steps|
    && (r.jobs[j].phase.Delivered? && result.JobOk? ==> r.steps[n].compensated)
    && (r.jobs[j].phase.Delivered? && !result.JobOk? ==>
          HaltedAt(r, n) && r.wf.error.value.cause == CauseText(result) && !r.steps[n].compensated)
    && (!r.jobs[j].phase.Delivered? ==> !r.steps[n].compensated)
  }

  /** No step takes a mark away, and a step that marks another row leaves this one. */
  predicate MarksFollow(before: seq<StepRow>, after: seq<StepRow>, n: nat, marked: bool) {
    n < |before| <= |after| && after[n].compensated == (before[n].compensated || marked)
  }

  lemma AdvanceMarks(h: Handler, maxParallelism: nat, r: Run, now: int, n: nat)
    requires n < |r.steps|
    ensures MarksFollow(r.steps, Advance(h, maxParallelism, r, now).steps, n, false)
  {
    var out := Replay(h, r.steps, now);
    if r.wf.state.Running? && out.Suspended? {
      StartStepsRows(r, Capped(out.newSteps, maxParallelism));
      var longer := StartSteps(r, Capped(out.newSteps, maxParallelism)).steps;
      assert longer[n] == longer[..|r.steps|][n];
    }
  }

  lemma StepMarks(h: Handler, maxParallelism: nat, r: Run, l: Label, n: nat)
    requires Inv(h, r) && n < |r.steps| && Enabled(r, l)
    ensures MarksFollow(r.steps, Step(h, maxParallelism, r, l).steps, n,
                        l.DeliverReport? && r.jobs[l.job].kind == UndoJob(n, r.wf.generationNumber) && r.jobs[l.job].phase.result.JobOk?)
  {
    match l
    case RunJob(j, now) => AdvanceMarks(h, maxParallelism, SetPhase(r, j, Delivered), now, n);
    case DeliverReport(j, now) =>
      var kind := r.jobs[j].kind;
      assert JobInv(r, j);
      if kind.ForwardJob? || kind.UndoJob? {
        FindStepIs(r, kind.step);
      }
    case _ =>
  }

  /** The delivery of a compensation's report. */
  lemma UndoDelivered(h: Handler, maxParallelism: nat, r: Run, j: nat, now: int)
    requires Inv(h, r) && Enabled(r, DeliverReport(j, now)) && r.jobs[j].kind.UndoJob?
    ensures var s := Step(h, maxParallelism, r, DeliverReport(j, now));
            && j < |s.jobs| && s.jobs[j].kind == r.jobs[j].kind && s.jobs[j].phase.Delivered?
            && UndoTold(s, j, r.jobs[j].phase.result)
  {
    UndoIsFrontier(r, j);
    FindStepIs(r, r.jobs[j].kind.step);
    assert StepInv(r, r.jobs[j].kind.step);
  }

  /** A compensation that was delivered before stays as it was told. */
  lemma UndoStays(h: Handler, maxParallelism: nat, r: Run, l: Label, j: nat, result: JobResult)
    requires Inv(h, r) && Enabled(r, l) && j < |r.jobs| && r.jobs[j].kind.UndoJob? && r.jobs[j].phase.Delivered?
    requires UndoTold(r, j, result)
    ensures var s := Step(h, maxParallelism, r, l);
            j < |s.jobs| && s.jobs[j].kind == r.jobs[j].kind && s.jobs[j].phase.Delivered? && UndoTold(s, j, result)
  {
    var n := r.jobs[j].kind.step;
    StepJobs(h, maxParallelism, r, l);
    assert PhaseFollows(r.jobs[j], Step(h, maxParallelism, r, l).jobs[j], j, l);
    StepMarks(h, maxParallelism, r, l, n);
    assert JobInv(r, j);
    assert l.DeliverReport? ==> JobInv(r, l.job);
    if !result.JobOk? {
      TerminalIsFinal(h, maxParallelism, r, l);
    }
  }

  lemma UndoStep(h: Handler, maxParallelism: nat, r: Run, l: Label, j: nat, told: JobResult, after: JobResult)
    requires Inv(h, r) && Enabled(r, l) && maxParallelism >= 1
    requires j < |r.jobs| && r.jobs[j].kind.UndoJob? ==> UndoTold(r, j, told)
    requires j < |r.jobs| && r.jobs[j].phase.Delivered? ==> after == told
    requires j < |r.jobs| && l.DeliverReport? && l.job == j ==> after == r.jobs[j].phase.result
    ensures var s := Step(h, maxParallelism, r, l); j < |s.jobs| && s.jobs[j].kind.UndoJob? ==> UndoTold(s, j, after)
  {
    var s := Step(h, maxParallelism, r, l);
    StepJobs(h, maxParallelism, r, l);
    if j < |s.jobs| && s.jobs[j].kind.UndoJob? {
      assert j < |r.jobs| ==> PhaseFollows(r.jobs[j], s.jobs[j], j, l);
      if s.jobs[j].phase.Delivered? {
        if r.jobs[j].phase.Delivered? {
          UndoStays(h, maxParallelism, r, l, j, told);
        } else {
          UndoDelivered(h, maxParallelism, r, j, l.now);
        }
      } else {
        StepKeepsInv(h, maxParallelism, r, l);
        assert JobInv(s, j) && StepInv(s, s.jobs[j].kind.step);
      }
    }
  }

  /**
   What a compensation reports decides the unwind: a delivered one has marked its step as compensated if and
   only if it was reported a success, and otherwise the run has halted at that step with the error
   that was reported.
   */
  lemma {:induction false} CompensationsTell(h: Handler, maxParallelism: nat, onComplete: Option<string>, start: int,
                                             labels: seq<Label>, j: nat)
    requires maxParallelism >= 1
    ensures var r := Reached(h, maxParallelism, onComplete, start, labels);
            j < |r.jobs| && r.jobs[j].kind.UndoJob? ==>
              UndoTold(r, j, ResultOf(h, maxParallelism, Initial(onComplete, start), labels, j))
  {
    if labels != [] {
      var front, l := labels[..|labels| - 1], labels[|labels| - 1];
      var r, r0 := Reached(h, maxParallelism, onComplete, start, front), Initial(onComplete, start);
      CompensationsTell(h, maxParallelism, onComplete, start, front, j);
      if Enabled(r, l) {
        ReachedInv(h, maxParallelism, onComplete, start, front);
        PhasesTold(h, maxParallelism, onComplete, start, front, j);
        UndoStep(h, maxParallelism, r, l, j, ResultOf(h, maxParallelism, r0, front, j), ResultOf(h, maxParallelism, r0, labels, j));
      }
    }
  }

  // ---------------------------------------------------------------- what a cancel reaches

  lemma {:induction false} CascadeReaches(r: Run, n: nat, i: nat)
    requires Linked(r) && r.wf.state.Running? && i < n <= |r.steps|
    requires r.steps[i].state.Pending? && !r.steps[i].kind.WaitForEvent?
    ensures var jobs := CancelJobsOf(r.steps, n, r.jobs);
            StepInv(r, i) && |jobs| == |r.jobs| && !jobs[r.steps[i].scheduledJobId.value].phase.Queued?
  {
    assert StepInv(r, i);
    var j := r.steps[i].scheduledJobId.value;
    CascadeCancelsForwardJobs(r, n - 1);
    CascadeCancelsForwardJobs(r, n);
    var before := CancelJobsOf(r.steps, n - 1, r.jobs);
    assert CanceledOrSame(r.jobs[j], before[j]);
    if i < n - 1 {
      CascadeReaches(r, n - 1, i);
    }
    assert StepInv(r, n - 1);
  }

  /**
   A cancel takes effect on the jobs: every forward job that nobody has claimed is reported canceled, all
   other jobs are left alone, and no forward report that is delivered afterwards changes the journal.
   */
  lemma CancelStopsJobs(h: Handler, maxParallelism: nat, r: Run, compensate: bool, now: int, j: nat, later: int)
    requires Inv(h, r) && r.wf.state.Running? && j < |r.jobs|
    ensures var s, job := CancelRun(r, compensate, now), r.jobs[j];
            && !s.wf.state.Running? && j < |s.jobs|
            && s.jobs[j] == (if job.kind.ForwardJob? && job.phase.Queued? then job.(phase := Reported(JobCanceled)) else job)
            && (job.kind.ForwardJob? ==> Step(h, maxParallelism, s, DeliverReport(j, later)).steps == s.steps)
  {
    var s := CancelRun(r, compensate, now);
    CascadeCancelsForwardJobs(r, |r.steps|);
    var jobs := CancelJobsOf(r.steps, |r.steps|, r.jobs);
    assert CanceledOrSame(r.jobs[j], jobs[j]) && s.jobs[j] == jobs[j];
    assert JobInv(r, j);
    if r.jobs[j].kind.ForwardJob? {
      var i := r.jobs[j].kind.step;
      assert StepInv(r, i);
      if r.jobs[j].phase.Queued? {
        CascadeReaches(r, |r.steps|, i);
      }
    }
  }
}
