/**
 The workflow component's mutations. Each is first a function on the rows of a run, then a
 method of `WorkflowDb` that works on the rows step by step and is proved to compute it.
 */
module WorkflowMachine {
  import opened Prelude
  import opened WorkflowTypes
  import opened WorkflowReplay

  // ---------------------------------------------------------------- the mutations as functions

  function Enqueue(r: Run, job: Job): Run {
    r.(jobs := r.jobs + [job])
  }

  /** `fireWorkflowOnComplete`: a job for the run's own callback, if it has one. */
  function Notify(r: Run, notice: Notice, now: int): Run {
    if r.wf.onComplete.None? then r
    else Enqueue(r, Job(NotifyJob(r.wf.onComplete.value, notice), r.wf.onComplete.value, NoArgs, Some(now), None, Queued))
  }

  function NoticeFor(target: Target, error: WfError): Notice {
    if target.ToCanceled? then WasCanceled else FailedWith(error)
  }

  function TerminalFor(target: Target): WfState {
    if target.ToCanceled? then Canceled else Failed
  }

  const UNWIND: Job := Job(UnwindJob, "workflow:_compensate", NoArgs, None, None, Queued)
  const ADVANCE: Job := Job(AdvanceJob, "workflow:_advance", NoArgs, None, None, Queued)

  predicate AnyOwed(steps: seq<StepRow>) {
    exists i :: 0 <= i < |steps| && Owed(steps[i])
  }

  /** `failOrCompensate`: terminal at once when nothing is owed, otherwise start the unwind. */
  function FailOrCompensate(r: Run, error: WfError, target: Target, now: int): Run {
    if !AnyOwed(r.steps) then
      Notify(r.(wf := r.wf.(state := TerminalFor(target), error := Some(error))), NoticeFor(target, error), now)
    else
      Enqueue(r.(wf := r.wf.(state := Compensating, error := Some(error), compensationTarget := Some(target))), UNWIND)
  }

  function RowFor(ns: NewStep, job: Option<nat>): StepRow {
    StepRow(ns.stepNumber, ns.name, ns.kind, ns.args, Pending, job, ns.opts.compensateFnPath, ns.opts.maxAttempts, None, false)
  }

  function ForwardFor(ns: NewStep, gen: nat): Job {
    Job(ForwardJob(ns.stepNumber, gen), ns.name, StepArgs(ns.args), ns.opts.runAt, ns.opts.maxAttempts, Queued)
  }

  /** Journals one new step and dispatches it: a job, or a waiting event. */
  function StartStep(r: Run, ns: NewStep): Run {
    if ns.kind.WaitForEvent? then
      r.(steps := r.steps + [RowFor(ns, None)], events := r.events + [EventRow(ns.name, Waiting)])
    else
      r.(steps := r.steps + [RowFor(ns, Some(|r.jobs|))], jobs := r.jobs + [ForwardFor(ns, r.wf.generationNumber)])
  }

  function StartSteps(r: Run, ns: seq<NewStep>): Run
    decreases |ns|
  {
    if ns == [] then r else StartStep(StartSteps(r, ns[..|ns| - 1]), ns[|ns| - 1])
  }

  /** The fan-out cap. */
  function Capped(ns: seq<NewStep>, maxParallelism: nat): seq<NewStep> {
    if |ns| <= maxParallelism then ns else ns[..maxParallelism]
  }

  /** `workflow:_advance`. */
  function Advance(h: Handler, maxParallelism: nat, r: Run, now: int): Run {
    if !r.wf.state.Running? then r
    else match Replay(h, r.steps, now)
      case Finished(v) =>
        Notify(r.(wf := r.wf.(state := Completed, result := Some(v))), SucceededWith(v), now)
      case Threw(e) => FailOrCompensate(r, e, ToFailed, now)
      case Suspended(ns) =>
        if ns == [] && Settled(r.steps) then FailOrCompensate(r, StalledOnForeignAwait, ToFailed, now)
        else StartSteps(r, Capped(ns, maxParallelism))
  }

  /** The first row with a given step number, or the number of rows. */
  function FindStep(steps: seq<StepRow>, n: nat, from: nat := 0): (i: nat)
    requires from <= |steps|
    ensures from <= i <= |steps| && (i < |steps| ==> steps[i].stepNumber == n)
    ensures forall k :: from <= k < i ==> steps[k].stepNumber != n
    decreases |steps| - from
  {
    if from == |steps| || steps[from].stepNumber == n then from else FindStep(steps, n, from + 1)
  }

  function StateFor(result: JobResult): StepState {
    match result
    case JobOk(v) => Success(v)
    case JobFailed(e) => Failure(e)
    case JobCanceled => Failure("canceled")
  }

  /** `workflow:_stepDone`. */
  function StepDone(r: Run, n: nat, gen: nat, result: JobResult): Run {
    var i := FindStep(r.steps, n);
    if r.wf.generationNumber != gen || i == |r.steps| then r
    else Enqueue(r.(steps := r.steps[i := r.steps[i].(state := StateFor(result))]), ADVANCE)
  }

  /** The owed row with the highest step number. */
  function HighestOwed(steps: seq<StepRow>): (i: Option<nat>)
    ensures i.None? <==> !AnyOwed(steps)
    ensures i.Some? ==> i.value < |steps| && Owed(steps[i.value])
    ensures i.Some? ==> forall k :: 0 <= k < |steps| && Owed(steps[k]) ==> steps[k].stepNumber <= steps[i.value].stepNumber
  {
    if steps == [] then None
    else
      var n := |steps| - 1;
      var best := HighestOwed(steps[..n]);
      assert forall k :: 0 <= k < n && Owed(steps[k]) ==> Owed(steps[..n][k]);
      if Owed(steps[n]) && (best.None? || steps[n].stepNumber > steps[best.value].stepNumber) then Some(n) else best
  }

  function UndoFor(s: StepRow, gen: nat): Job
    requires Owed(s)
  {
    Job(UndoJob(s.stepNumber, gen), s.compensateFnPath.value, UndoArgs(s.args, s.state.result), None, s.maxAttempts, Queued)
  }

  /** `workflow:_compensate`: dispatch the next compensation, or end the unwind. */
  function Unwind(r: Run, now: int): Run {
    if !r.wf.state.Compensating? then r
    else
      var next := HighestOwed(r.steps);
      if next.None? then
        var target := if r.wf.compensationTarget == Some(ToCanceled) then ToCanceled else ToFailed;
        Notify(r.(wf := r.wf.(state := TerminalFor(target))), if target.ToCanceled? then WasCanceled else FailedWith(ErrorOf(r.wf)), now)
      else
        var s := r.steps[next.value];
        r.(jobs := r.jobs + [UndoFor(s, r.wf.generationNumber)],
           steps := r.steps[next.value := s.(compensationJobId := Some(|r.jobs|))])
  }

  function ErrorOf(wf: Workflow): WfError {
    if wf.error.Some? then wf.error.value else HandlerError("")
  }

  function CauseOf(result: JobResult): string
    requires !result.JobOk?
  {
    if result.JobFailed? then result.error else "canceled"
  }

  /** `workflow:_compensateDone`. */
  function UnwindDone(r: Run, n: nat, gen: nat, result: JobResult, now: int): Run {
    var i := FindStep(r.steps, n);
    if r.wf.generationNumber != gen || i == |r.steps| then r
    else if result.JobOk? then
      Enqueue(r.(steps := r.steps[i := r.steps[i].(compensated := true)]), UNWIND)
    else
      Notify(r.(wf := r.wf.(state := Failed, error := Some(UndoFailed(n, CauseOf(result), r.wf.error)))),
             FailedWith(UndoFailedAt(n)), now)
  }

  /** `scheduler.cancel` on one of the run's jobs: only a job nobody has claimed is canceled. */
  function CancelJob(jobs: seq<Job>, id: Option<nat>): seq<Job> {
    if id.Some? && id.value < |jobs| && jobs[id.value].phase.Queued?
    then jobs[id.value := jobs[id.value].(phase := Reported(JobCanceled))]
    else jobs
  }

  function CancelStepJobs(s: StepRow, jobs: seq<Job>): seq<Job> {
    var forward := if s.state.Pending? then CancelJob(jobs, s.scheduledJobId) else jobs;
    if s.compensated then forward else CancelJob(forward, s.compensationJobId)
  }

  /** The cascade of a cancel over the first `n` rows. */
  function CancelJobsOf(steps: seq<StepRow>, n: nat, jobs: seq<Job>): seq<Job>
    requires n <= |steps|
  {
    if n == 0 then jobs else CancelStepJobs(steps[n - 1], CancelJobsOf(steps, n - 1, jobs))
  }

  /** `ctx.workflow.cancel`. */
  function CancelRun(r: Run, compensate: bool, now: int): Run {
    if !r.wf.state.Running? then r
    else
      var c := r.(jobs := CancelJobsOf(r.steps, |r.steps|, r.jobs));
      var wf := r.wf.(generationNumber := r.wf.generationNumber + 1);
      if !compensate || !AnyOwed(r.steps) then Notify(c.(wf := wf.(state := Canceled)), WasCanceled, now)
      else Enqueue(c.(wf := wf.(state := Compensating, error := Some(CanceledByRequest), compensationTarget := Some(ToCanceled))), UNWIND)
  }

  predicate IsWaiting(e: EventRow, name: string) {
    e.name == name && e.state.Waiting?
  }

  predicate IsParked(s: StepRow, name: string) {
    s.kind.WaitForEvent? && s.name == name && s.state.Pending?
  }

  function FindWaiting(events: seq<EventRow>, name: string, from: nat := 0): (i: nat)
    requires from <= |events|
    ensures from <= i <= |events| && (i < |events| ==> IsWaiting(events[i], name))
    ensures forall k :: from <= k < i ==> !IsWaiting(events[k], name)
    decreases |events| - from
  {
    if from == |events| || IsWaiting(events[from], name) then from else FindWaiting(events, name, from + 1)
  }

  function FindParked(steps: seq<StepRow>, name: string, from: nat := 0): (i: nat)
    requires from <= |steps|
    ensures from <= i <= |steps| && (i < |steps| ==> IsParked(steps[i], name))
    ensures forall k :: from <= k < i ==> !IsParked(steps[k], name)
    decreases |steps| - from
  {
    if from == |steps| || IsParked(steps[from], name) then from else FindParked(steps, name, from + 1)
  }

  /** `sendEventImpl`. */
  function SendEvent(r: Run, name: string, payload: Json): Run {
    var e := FindWaiting(r.events, name);
    if e == |r.events| then r
    else
      var i := FindParked(r.steps, name);
      var steps := if i == |r.steps| then r.steps else r.steps[i := r.steps[i].(state := Success(payload))];
      Enqueue(r.(events := r.events[e := r.events[e].(state := Received(payload))], steps := steps), ADVANCE)
  }

  /** `ctx.workflow.start`: a running row and the first `_advance`. */
  function Initial(onComplete: Option<string>, now: int): Run {
    Run(Workflow(Running, 0, None, None, None, onComplete), [], [], [ADVANCE.(runAt := Some(now))])
  }

  // ---------------------------------------------------------------- the mutations as methods

  /** The tables of one run. */
  class WorkflowDb {
    var wf: Workflow
    var steps: seq<StepRow>
    var events: seq<EventRow>
    var jobs: seq<Job>

    ghost function Rows(): Run
      reads this
    {
      Run(wf, steps, events, jobs)
    }

    constructor Start(now: int)
      ensures Rows() == Initial(None, now)
    {
      wf := Workflow(Running, 0, None, None, None, None);
      steps, events := [], [];
      jobs := [ADVANCE.(runAt := Some(now))];
    }

    method InsertJob(job: Job) returns (id: nat)
      modifies this`jobs
      ensures id == old(|jobs|) && jobs == old(jobs) + [job]
    {
      id := |jobs|;
      jobs := jobs + [job];
    }

    method FireOnComplete(notice: Notice, now: int)
      modifies this`jobs
      ensures Rows() == Notify(old(Rows()), notice, now)
    {
      if wf.onComplete.Some? {
        var _ := InsertJob(Job(NotifyJob(wf.onComplete.value, notice), wf.onComplete.value, NoArgs, Some(now), None, Queued));
      }
    }

    method FailOrCompensateRun(error: WfError, target: Target, now: int)
      modifies this
      ensures Rows() == FailOrCompensate(old(Rows()), error, target, now)
    {
      var hasComp := AnyOwed(steps);
      if !hasComp {
        wf := wf.(state := TerminalFor(target), error := Some(error));
        FireOnComplete(NoticeFor(target, error), now);
      } else {
        wf := wf.(state := Compensating, error := Some(error), compensationTarget := Some(target));
        var _ := InsertJob(UNWIND);
      }
    }

    method AdvanceRun(h: Handler, maxParallelism: nat, now: int)
      modifies this
      ensures Rows() == Advance(h, maxParallelism, old(Rows()), now)
    {
      if !wf.state.Running? {
        return;
      }
      var outcome := RunReplay(h, steps, now);
      match outcome
      case Finished(v) =>
        wf := wf.(state := Completed, result := Some(v));
        FireOnComplete(SucceededWith(v), now);
      case Threw(e) =>
        FailOrCompensateRun(e, ToFailed, now);
      case Suspended(newSteps) =>
        if |newSteps| == 0 && Settled(steps) {
          FailOrCompensateRun(StalledOnForeignAwait, ToFailed, now);
        } else {
          Dispatch(Capped(newSteps, maxParallelism));
        }
    }

    method Dispatch(toDispatch: seq<NewStep>)
      modifies this`steps, this`events, this`jobs
      ensures Rows() == StartSteps(old(Rows()), toDispatch)
    {
      for i := 0 to |toDispatch|
        invariant Rows() == StartSteps(old(Rows()), toDispatch[..i])
      {
        var ns := toDispatch[i];
        assert toDispatch[..i + 1][..i] == toDispatch[..i];
        var row := RowFor(ns, None);
        steps := steps + [row];
        if ns.kind.WaitForEvent? {
          events := events + [EventRow(ns.name, Waiting)];
        } else {
          var jobId := InsertJob(ForwardFor(ns, wf.generationNumber));
          steps := steps[|steps| - 1 := row.(scheduledJobId := Some(jobId))];
        }
      }
      assert toDispatch[..|toDispatch|] == toDispatch;
    }

    method StepDoneCallback(n: nat, gen: nat, result: JobResult)
      modifies this
      ensures Rows() == StepDone(old(Rows()), n, gen, result)
    {
      if wf.generationNumber != gen {
        return;
      }
      var i := FindStep(steps, n);
      if i == |steps| {
        return;
      }
      steps := steps[i := steps[i].(state := StateFor(result))];
      var _ := InsertJob(ADVANCE);
    }

    method CompensateRun(now: int)
      modifies this
      ensures Rows() == Unwind(old(Rows()), now)
    {
      if !wf.state.Compensating? {
        return;
      }
      var next := HighestOwed(steps);
      if next.None? {
        var target := if wf.compensationTarget == Some(ToCanceled) then ToCanceled else ToFailed;
        wf := wf.(state := TerminalFor(target));
        FireOnComplete(if target.ToCanceled? then WasCanceled else FailedWith(ErrorOf(wf)), now);
        return;
      }
      var s := steps[next.value];
      var jobId := InsertJob(UndoFor(s, wf.generationNumber));
      steps := steps[next.value := s.(compensationJobId := Some(jobId))];
    }

    method CompensateDoneCallback(n: nat, gen: nat, result: JobResult, now: int)
      modifies this
      ensures Rows() == UnwindDone(old(Rows()), n, gen, result, now)
    {
      if wf.generationNumber != gen {
        return;
      }
      var i := FindStep(steps, n);
      if i == |steps| {
        return;
      }
      if result.JobOk? {
        steps := steps[i := steps[i].(compensated := true)];
        var _ := InsertJob(UNWIND);
      } else {
        wf := wf.(state := Failed, error := Some(UndoFailed(n, CauseOf(result), wf.error)));
        FireOnComplete(FailedWith(UndoFailedAt(n)), now);
      }
    }

    method CancelScheduled(id: Option<nat>)
      modifies this`jobs
      ensures jobs == CancelJob(old(jobs), id)
    {
      if id.Some? && id.value < |jobs| && jobs[id.value].phase.Queued? {
        jobs := jobs[id.value := jobs[id.value].(phase := Reported(JobCanceled))];
      }
    }

    method Cancel(compensate: bool, now: int)
      modifies this
      ensures Rows() == CancelRun(old(Rows()), compensate, now)
    {
      if !wf.state.Running? {
        return;
      }
      var gen := wf.generationNumber;
      for i := 0 to |steps|
        invariant wf == old(wf) && steps == old(steps) && events == old(events)
        invariant jobs == CancelJobsOf(steps, i, old(jobs))
      {
        if steps[i].state.Pending? {
          CancelScheduled(steps[i].scheduledJobId);
        }
        if !steps[i].compensated {
          CancelScheduled(steps[i].compensationJobId);
        }
      }
      var hasComp := AnyOwed(steps);
      if !compensate || !hasComp {
        wf := wf.(state := Canceled, generationNumber := gen + 1);
        FireOnComplete(WasCanceled, now);
        return;
      }
      wf := wf.(state := Compensating, generationNumber := gen + 1,
                error := Some(CanceledByRequest), compensationTarget := Some(ToCanceled));
      var _ := InsertJob(UNWIND);
    }

    method SendEventTo(name: string, payload: Json)
      modifies this
      ensures Rows() == SendEvent(old(Rows()), name, payload)
    {
      var e := FindWaiting(events, name);
      if e == |events| {
        return;
      }
      events := events[e := events[e].(state := Received(payload))];
      var i := FindParked(steps, name);
      if i < |steps| {
        steps := steps[i := steps[i].(state := Success(payload))];
      }
      var _ := InsertJob(ADVANCE);
    }
  }
}
