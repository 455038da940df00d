/**
 What a run was told, read off its labels alone: the outcome each step's job reported, or the payload
 that resolved an event. The journal holds exactly that, and the handler sees exactly that.
 */
module WorkflowReports {
  import opened Prelude
  import opened Sums
  import opened WorkflowTypes
  import opened WorkflowReplay
  import opened WorkflowMachine
  import opened WorkflowRuns
  import opened WorkflowInvariant
  import opened WorkflowTheorems

  // ---------------------------------------------------------------- what was reported

  /** What job `j` was reported to have come to, if it was. */
  ghost function ReportOf(h: Handler, maxParallelism: nat, r0: Run, labels: seq<Label>, j: nat): Option<JobResult> {
    if labels == [] then None
    else
      var front, l := labels[..|labels| - 1], labels[|labels| - 1];
      if l.ReportJob? && l.job == j && Enabled(Exec(h, maxParallelism, r0, front), l) then Some(l.result)
      else ReportOf(h, maxParallelism, r0, front, j)
  }

  /** A job that ended without a report was canceled. */
  ghost function ResultOf(h: Handler, maxParallelism: nat, r0: Run, labels: seq<Label>, j: nat): JobResult {
    var report := ReportOf(h, maxParallelism, r0, labels, j);
    if report.Some? then report.value else JobCanceled
  }

  /** How a step settles. */
  function AsOutcome(result: JobResult): Outcome {
    match result
    case JobOk(v) => Resolved(v)
    case JobFailed(e) => Rejected(e)
    case JobCanceled => Rejected("canceled")
  }

  /** Row `i` is the first event step that is parked under the name. */
  predicate FirstParked(steps: seq<StepRow>, name: string, i: nat) {
    && i < |steps| && IsParked(steps[i], name)
    && forall k :: 0 <= k < i ==> !IsParked(steps[k], name)
  }

  /** The outcome that step `l` of a run brings for journal row `i`, if it brings one. */
  ghost function Brings(h: Handler, maxParallelism: nat, r0: Run, front: seq<Label>, l: Label, i: nat): Option<Outcome> {
    var r := Exec(h, maxParallelism, r0, front);
    if !Enabled(r, l) then None
    else match l
      case DeliverReport(j, _) =>
        if r.jobs[j].kind == ForwardJob(i, r.wf.generationNumber) then Some(AsOutcome(ResultOf(h, maxParallelism, r0, front, j)))
        else None
      case Signal(name, payload) => if FirstParked(r.steps, name, i) then Some(Resolved(payload)) else None
      case _ => None
  }

  /** What step `i` settled with: the first thing that was heard of it. */
  ghost function Heard(h: Handler, maxParallelism: nat, r0: Run, labels: seq<Label>, i: nat): Option<Outcome> {
    if labels == [] then None
    else
      var front, l := labels[..|labels| - 1], labels[|labels| - 1];
      var before := Heard(h, maxParallelism, r0, front, i);
      if before.Some? then before else Brings(h, maxParallelism, r0, front, l, i)
  }

  // ---------------------------------------------------------------- jobs keep what they were told

  /** The phase a step of the run leaves job `j` in. */
  predicate PhaseFollows(before: Job, after: Job, j: nat, l: Label) {
    && after == before.(phase := after.phase)
    && match l
       case ReportJob(k, result) => after.phase == if k == j then Reported(result) else before.phase
       case ClaimJob(k) => after.phase == if k == j then Claimed else before.phase
       case RunJob(k, _) => after.phase == if k == j then Delivered else before.phase
       case DeliverReport(k, _) => after.phase == if k == j then Delivered else before.phase
       case RequestCancel(_, _) => after.phase == before.phase || (before.phase.Queued? && after.phase == Reported(JobCanceled))
       case Signal(_, _) => after.phase == before.phase
  }

  /** Jobs are appended, queued; those there are keep all but their phase. */
  ghost predicate JobsFollow(before: seq<Job>, after: seq<Job>, l: Label) {
    && |before| <= |after|
    && (forall j :: 0 <= j < |before| ==> PhaseFollows(before[j], after[j], j, l))
    && (forall j :: |before| <= j < |after| ==> after[j].phase.Queued?)
  }

  /** The jobs there are stay as they are, and new ones are queued. */
  ghost predicate Appended(before: seq<Job>, after: seq<Job>) {
    && |before| <= |after| && after[..|before|] == before
    && (forall j :: |before| <= j < |after| ==> after[j].phase.Queued?)
  }

  lemma {:induction false} StartStepsJobs(r: Run, ns: seq<NewStep>)
    ensures Appended(r.jobs, StartSteps(r, ns).jobs)
    decreases |ns|
  {
    if ns != [] {
      StartStepsJobs(r, ns[..|ns| - 1]);
    }
  }

  lemma AdvanceJobs(h: Handler, maxParallelism: nat, r: Run, now: int)
    ensures Appended(r.jobs, Advance(h, maxParallelism, r, now).jobs)
  {
    var out := Replay(h, r.steps, now);
    if r.wf.state.Running? && out.Suspended? {
      StartStepsJobs(r, Capped(out.newSteps, maxParallelism));
    }
  }

  lemma CallbackJobs(r: Run, n: nat, gen: nat, result: JobResult, now: int)
    ensures Appended(r.jobs, Unwind(r, now).jobs) && Appended(r.jobs, StepDone(r, n, gen, result).jobs)
    ensures Appended(r.jobs, UnwindDone(r, n, gen, result, now).jobs)
  {
  }

  /** A job's record is closed and the mutation behind it runs. */
  lemma ThenAppended(r: Run, j: nat, p: Phase, after: seq<Job>, l: Label)
    requires j < |r.jobs| && Appended(SetPhase(r, j, p).jobs, after) && !l.Signal? && !l.RequestCancel? && l.job == j
    requires match l
             case ReportJob(_, result) => p == Reported(result)
             case ClaimJob(_) => p == Claimed
             case _ => p == Delivered
    ensures JobsFollow(r.jobs, after, l)
  {
    forall k | 0 <= k < |r.jobs| ensures PhaseFollows(r.jobs[k], after[k], k, l) {
      assert after[k] == after[..|r.jobs|][k];
    }
  }

  lemma CancelJobs(h: Handler, r: Run, compensate: bool, now: int)
    requires Inv(h, r) && r.wf.state.Running?
    ensures JobsFollow(r.jobs, CancelRun(r, compensate, now).jobs, RequestCancel(compensate, now))
  {
    CascadeCancelsForwardJobs(r, |r.steps|);
    var jobs, after := CancelJobsOf(r.steps, |r.steps|, r.jobs), CancelRun(r, compensate, now).jobs;
    forall k | 0 <= k < |r.jobs| ensures PhaseFollows(r.jobs[k], after[k], k, RequestCancel(compensate, now)) {
      assert CanceledOrSame(r.jobs[k], jobs[k]) && after[k] == jobs[k];
    }
  }

  lemma StepJobs(h: Handler, maxParallelism: nat, r: Run, l: Label)
    requires Inv(h, r) && Enabled(r, l)
    ensures JobsFollow(r.jobs, Step(h, maxParallelism, r, l).jobs, l)
  {
    var after := Step(h, maxParallelism, r, l).jobs;
    match l
    case RunJob(j, now) =>
      AdvanceJobs(h, maxParallelism, SetPhase(r, j, Delivered), now);
      CallbackJobs(SetPhase(r, j, Delivered), 0, 0, JobCanceled, now);
      ThenAppended(r, j, Delivered, after, l);
    case ClaimJob(j) => ThenAppended(r, j, Claimed, after, l);
    case ReportJob(j, result) => ThenAppended(r, j, Reported(result), after, l);
    case DeliverReport(j, now) =>
      var kind := r.jobs[j].kind;
      if kind.ForwardJob? || kind.UndoJob? {
        CallbackJobs(SetPhase(r, j, Delivered), kind.step, kind.gen, r.jobs[j].phase.result, now);
      }
      ThenAppended(r, j, Delivered, after, l);
    case RequestCancel(compensate, now) => CancelJobs(h, r, compensate, now);
    case Signal(name, payload) =>
  }

  /** What is still to be delivered of a job is what was reported of it. */
  ghost predicate PhaseTold(p: Phase, report: Option<JobResult>) {
    match p
    case Queued => report.None?
    case Claimed => report.None?
    case Reported(result) => result == if report.Some? then report.value else JobCanceled
    case Delivered => true
  }

  lemma {:induction false} PhasesTold(h: Handler, maxParallelism: nat, onComplete: Option<string>, start: int,
                                      labels: seq<Label>, j: nat)
    requires maxParallelism >= 1
    ensures var r := Reached(h, maxParallelism, onComplete, start, labels);
            var report := ReportOf(h, maxParallelism, Initial(onComplete, start), labels, j);
            if j < |r.jobs| then PhaseTold(r.jobs[j].phase, report) else report.None?
  {
    if labels != [] {
      var front, l := labels[..|labels| - 1], labels[|labels| - 1];
      PhasesTold(h, maxParallelism, onComplete, start, front, j);
      ReachedInv(h, maxParallelism, onComplete, start, front);
      var r := Reached(h, maxParallelism, onComplete, start, front);
      if Enabled(r, l) {
        StepJobs(h, maxParallelism, r, l);
        assert j < |r.jobs| ==> PhaseFollows(r.jobs[j], Step(h, maxParallelism, r, l).jobs[j], j, l);
      }
    }
  }

  // ---------------------------------------------------------------- rows settle with what is brought

  /** The row is pending until its step is heard of, and then holds what was heard. */
  predicate Tells(s: StepState, heard: Option<Outcome>) {
    match heard
    case None => s.Pending?
    case Some(Resolved(v)) => s == Success(v)
    case Some(Rejected(e)) => s == Failure(e)
  }

  /** One step: a row that nothing is brought for keeps its state, a new one is pending. */
  ghost predicate RowFollows(before: seq<StepRow>, after: seq<StepRow>, i: nat, brought: Option<Outcome>) {
    && |before| <= |after|
    && (i < |before| && brought.None? ==> after[i].state == before[i].state)
    && (i < |before| && brought.Some? ==> before[i].state.Pending? && Tells(after[i].state, brought))
    && (|before| <= i < |after| ==> after[i].state.Pending?)
    && (i >= |before| ==> brought.None?)
  }

  lemma AdvanceRows(h: Handler, maxParallelism: nat, r: Run, now: int, i: nat)
    ensures RowFollows(r.steps, Advance(h, maxParallelism, r, now).steps, i, None)
  {
    var out := Replay(h, r.steps, now);
    if r.wf.state.Running? && out.Suspended? {
      var batch := Capped(out.newSteps, maxParallelism);
      StartStepsRows(r, batch);
      var longer := StartSteps(r, batch).steps;
      assert i < |r.steps| ==> longer[i] == longer[..|r.steps|][i];
      assert |r.steps| <= i < |longer| ==> AnswersTo(longer[|r.steps| + (i - |r.steps|)], batch[i - |r.steps|]);
    }
  }

  lemma ReportRows(h: Handler, maxParallelism: nat, r: Run, j: nat, now: int, i: nat)
    requires Inv(h, r) && Enabled(r, DeliverReport(j, now))
    ensures RowFollows(r.steps, Step(h, maxParallelism, r, DeliverReport(j, now)).steps, i,
                       if r.jobs[j].kind == ForwardJob(i, r.wf.generationNumber) then Some(AsOutcome(r.jobs[j].phase.result)) else None)
  {
    assert JobInv(r, j);
    match r.jobs[j].kind {
      case ForwardJob(n, gen) =>
        assert StepInv(r, n);
        FindStepIs(r, n);
      case UndoJob(n, gen) => FindStepIs(r, n);
      case _ =>
    }
  }

  lemma SignalRows(h: Handler, maxParallelism: nat, r: Run, name: string, payload: Json, i: nat)
    requires Inv(h, r) && Enabled(r, Signal(name, payload))
    ensures RowFollows(r.steps, Step(h, maxParallelism, r, Signal(name, payload)).steps, i,
                       if FirstParked(r.steps, name, i) then Some(Resolved(payload)) else None)
  {
    WaitingHasParked(r, name);
    var first := FindParked(r.steps, name);
    assert FirstParked(r.steps, name, i) <==> i == first;
  }

  lemma UnwindRows(r: Run, now: int, i: nat)
    ensures RowFollows(r.steps, Unwind(r, now).steps, i, None)
  {
  }

  /** The journal holds what was heard, row by row. */
  lemma {:induction false} RowsTell(h: Handler, maxParallelism: nat, onComplete: Option<string>, start: int,
                                    labels: seq<Label>, i: nat)
    requires maxParallelism >= 1
    ensures var r := Reached(h, maxParallelism, onComplete, start, labels);
            var heard := Heard(h, maxParallelism, Initial(onComplete, start), labels, i);
            if i < |r.steps| then Tells(r.steps[i].state, heard) else heard.None?
  {
    if labels != [] {
      var front, l := labels[..|labels| - 1], labels[|labels| - 1];
      RowsTell(h, maxParallelism, onComplete, start, front, i);
      RowsTellStep(h, maxParallelism, onComplete, start, front, l, i);
    }
  }

  lemma RowsTellStep(h: Handler, maxParallelism: nat, onComplete: Option<string>, start: int,
                     front: seq<Label>, l: Label, i: nat)
    requires maxParallelism >= 1
    ensures var r := Reached(h, maxParallelism, onComplete, start, front);
            RowFollows(r.steps, Step(h, maxParallelism, r, l).steps, i, Brings(h, maxParallelism, Initial(onComplete, start), front, l, i))
  {
    ReachedInv(h, maxParallelism, onComplete, start, front);
    var r := Reached(h, maxParallelism, onComplete, start, front);
    if Enabled(r, l) {
      match l
      case RunJob(j, now) =>
        if r.jobs[j].kind.AdvanceJob? {
          AdvanceRows(h, maxParallelism, SetPhase(r, j, Delivered), now, i);
        } else if r.jobs[j].kind.UnwindJob? {
          UnwindRows(SetPhase(r, j, Delivered), now, i);
        }
      case DeliverReport(j, now) =>
        PhasesTold(h, maxParallelism, onComplete, start, front, j);
        ReportRows(h, maxParallelism, r, j, now, i);
      case Signal(name, payload) => SignalRows(h, maxParallelism, r, name, payload, i);
      case _ =>
    }
  }

  // ---------------------------------------------------------------- the handler sees what was reported

  /**
   The outcomes of a run are those that were reported. Step `i` is pending until its job's report is
   delivered in the generation it was started in, or a signal resolves it; from then on the journal
   holds that outcome, and it is what the handler sees as the outcome of its `i`-th step.
   */
  lemma HandlerSeesReports(h: Handler, maxParallelism: nat, onComplete: Option<string>, start: int,
                           labels: seq<Label>, n: nat)
    requires maxParallelism >= 1
    ensures var r := Reached(h, maxParallelism, onComplete, start, labels);
            && (forall i :: 0 <= i < |r.steps| ==> Tells(r.steps[i].state, Heard(h, maxParallelism, Initial(onComplete, start), labels, i)))
            && (n <= |r.steps| && SettledTo(r.steps, n) ==>
                  forall i :: 0 <= i < n ==> Heard(h, maxParallelism, Initial(onComplete, start), labels, i) == Some(Seen(r.steps, n)[i]))
  {
    var r := Reached(h, maxParallelism, onComplete, start, labels);
    forall i | 0 <= i < |r.steps| ensures Tells(r.steps[i].state, Heard(h, maxParallelism, Initial(onComplete, start), labels, i)) {
      RowsTell(h, maxParallelism, onComplete, start, labels, i);
    }
    if n <= |r.steps| && SettledTo(r.steps, n) {
      forall i | 0 <= i < n ensures Heard(h, maxParallelism, Initial(onComplete, start), labels, i) == Some(Seen(r.steps, n)[i]) {
        SeenIsTold(r.steps, n, i, Heard(h, maxParallelism, Initial(onComplete, start), labels, i));
      }
    }
  }

  lemma SeenIsTold(rows: seq<StepRow>, n: nat, i: nat, heard: Option<Outcome>)
    requires i < n <= |rows| && SettledTo(rows, n) && Tells(rows[i].state, heard)
    ensures heard == Some(Seen(rows, n)[i])
  {
  }

  /** The oracle answers what was reported. */
  ghost predicate Agrees(h: Handler, maxParallelism: nat, onComplete: Option<string>, start: int, labels: seq<Label>, o: Oracle) {
    forall i :: Heard(h, maxParallelism, Initial(onComplete, start), labels, i).Some? ==>
      o(i) == Heard(h, maxParallelism, Initial(onComplete, start), labels, i).value
  }

  lemma AgreesIsConsistent(h: Handler, maxParallelism: nat, onComplete: Option<string>, start: int, labels: seq<Label>, o: Oracle)
    requires maxParallelism >= 1
    ensures Agrees(h, maxParallelism, onComplete, start, labels, o) <==>
            Consistent(o, Reached(h, maxParallelism, onComplete, start, labels).steps)
  {
    var r := Reached(h, maxParallelism, onComplete, start, labels);
    forall i: nat
      ensures if i < |r.steps| then Tells(r.steps[i].state, Heard(h, maxParallelism, Initial(onComplete, start), labels, i))
              else Heard(h, maxParallelism, Initial(onComplete, start), labels, i).None?
    {
      RowsTell(h, maxParallelism, onComplete, start, labels, i);
    }
  }

  /**
   Replay preserves meaning over whole runs: for every oracle that answers what the run's steps were
   reported to have come to, a completed run has the result of running the handler once directly, a
   run that failed by itself (or is unwinding for that) has its error, and the direct run takes
   exactly the steps in the journal.
   */
  lemma RunsMeanDirectRuns(h: Handler, maxParallelism: nat, onComplete: Option<string>, start: int,
                           labels: seq<Label>, o: Oracle)
    requires maxParallelism >= 1 && Agrees(h, maxParallelism, onComplete, start, labels, o)
    ensures MeansDirectRun(h, Reached(h, maxParallelism, onComplete, start, labels), o)
  {
    AgreesIsConsistent(h, maxParallelism, onComplete, start, labels, o);
    JournalMeansDirectRun(h, maxParallelism, onComplete, start, labels, o);
  }
}
