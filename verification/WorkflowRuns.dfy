/**
 Whole runs of one workflow: the atomic steps the scheduler and the outside world can take, the
 invariant every one of them keeps, and what the invariant says about reachable states.
 */
module WorkflowRuns {
  import opened Prelude
  import opened Sums
  import opened WorkflowTypes
  import opened WorkflowReplay
  import opened WorkflowMachine

  /** One atomic step. A job's completion callback runs exactly once. */
  datatype Label =
    | RunJob(job: nat, now: int)
    | ClaimJob(job: nat)
    | ReportJob(job: nat, result: JobResult)
    | DeliverReport(job: nat, now: int)
    | RequestCancel(compensate: bool, now: int)
    | Signal(name: string, payload: Json)

  predicate Internal(k: JobKind) {
    k.AdvanceJob? || k.UnwindJob? || k.NotifyJob?
  }

  /** When a step can happen and has an effect. */
  predicate Enabled(r: Run, l: Label) {
    match l
    case RunJob(j, _) => j < |r.jobs| && Internal(r.jobs[j].kind) && r.jobs[j].phase.Queued?
    case ClaimJob(j) => j < |r.jobs| && !Internal(r.jobs[j].kind) && r.jobs[j].phase.Queued?
    case ReportJob(j, result) => j < |r.jobs| && r.jobs[j].phase.Claimed? && !result.JobCanceled?
    case DeliverReport(j, _) => j < |r.jobs| && r.jobs[j].phase.Reported?
    case RequestCancel(_, _) => r.wf.state.Running?
    case Signal(name, _) => FindWaiting(r.events, name) < |r.events|
  }

  function SetPhase(r: Run, j: nat, p: Phase): Run
    requires j < |r.jobs|
  {
    r.(jobs := r.jobs[j := r.jobs[j].(phase := p)])
  }

  function Step(h: Handler, maxParallelism: nat, r: Run, l: Label): Run {
    if !Enabled(r, l) then r
    else match l
      case RunJob(j, now) =>
        var done := SetPhase(r, j, Delivered);
        (match r.jobs[j].kind
         case AdvanceJob => Advance(h, maxParallelism, done, now)
         case UnwindJob => Unwind(done, now)
         case _ => done)
      case ClaimJob(j) => SetPhase(r, j, Claimed)
      case ReportJob(j, result) => SetPhase(r, j, Reported(result))
      case DeliverReport(j, now) =>
        var done := SetPhase(r, j, Delivered);
        var result := r.jobs[j].phase.result;
        (match r.jobs[j].kind
         case ForwardJob(n, gen) => StepDone(done, n, gen, result)
         case UndoJob(n, gen) => UnwindDone(done, n, gen, result, now)
         case _ => done)
      case RequestCancel(compensate, now) => CancelRun(r, compensate, now)
      case Signal(name, payload) => SendEvent(r, name, payload)
  }

  function Exec(h: Handler, maxParallelism: nat, r: Run, labels: seq<Label>): Run {
    if labels == [] then r
    else Step(h, maxParallelism, Exec(h, maxParallelism, r, labels[..|labels| - 1]), labels[|labels| - 1])
  }

  // ---------------------------------------------------------------- the invariant

  /** A journal row, its number, and the jobs it points to. */
  predicate StepInv(r: Run, i: nat)
    requires i < |r.steps|
  {
    var s := r.steps[i];
    && s.stepNumber == i
    && (if s.kind.WaitForEvent? then s.scheduledJobId.None? && s.compensateFnPath.None?
        else
          && s.scheduledJobId.Some? && s.scheduledJobId.value < |r.jobs|
          && var job := r.jobs[s.scheduledJobId.value];
          && job.kind.ForwardJob? && job.kind.step == i
          && job.fnPath == s.name && job.args == StepArgs(s.args) && job.maxFailures == s.maxAttempts
          && job.kind.gen <= r.wf.generationNumber
          && (r.wf.state.Running? ==> job.kind.gen == r.wf.generationNumber)
          && (!s.state.Pending? ==> job.phase.Delivered?)
          && (s.state.Pending? && job.kind.gen == r.wf.generationNumber ==> !job.phase.Delivered?))
    && (s.compensationJobId.Some? ==>
          && s.compensationJobId.value < |r.jobs|
          && var job := r.jobs[s.compensationJobId.value];
          && job.kind == UndoJob(i, r.wf.generationNumber)
          && Undoable(s)
          && job.fnPath == s.compensateFnPath.value && job.args == UndoArgs(s.args, s.state.result)
          && job.maxFailures == s.maxAttempts)
    && (s.compensated ==> s.compensationJobId.Some? && r.jobs[s.compensationJobId.value].phase.Delivered?)
  }

  /** A job belongs to the row it names, and to no other. */
  predicate JobInv(r: Run, j: nat)
    requires j < |r.jobs|
  {
    var job := r.jobs[j];
    match job.kind
    case ForwardJob(n, gen) =>
      && n < |r.steps| && r.steps[n].scheduledJobId == Some(j)
      && (!r.wf.state.Running? && !job.phase.Delivered? ==> gen < r.wf.generationNumber)
    case UndoJob(n, gen) =>
      && n < |r.steps| && r.steps[n].compensationJobId == Some(j)
      && !r.wf.state.Running? && !r.wf.state.Completed?
    case _ => job.phase.Queued? || job.phase.Delivered?
  }

  ghost predicate Linked(r: Run) {
    && (forall i :: 0 <= i < |r.steps| ==> StepInv(r, i))
    && (forall j :: 0 <= j < |r.jobs| ==> JobInv(r, j))
  }

  /** The single token that moves an unwind forward: its driver job, or a compensation in flight. */
  predicate UnwindToken(job: Job) {
    (job.kind.UnwindJob? && job.phase.Queued?) || (job.kind.UndoJob? && !job.phase.Delivered?)
  }

  function TokenWeight(): Job -> nat {
    (job: Job) => if UnwindToken(job) then 1 else 0
  }

  predicate OneToken(r: Run) {
    Sum(r.jobs, TokenWeight()) == if r.wf.state.Compensating? then 1 else 0
  }

  function NoticeWeight(): Job -> nat {
    (job: Job) => if job.kind.NotifyJob? then 1 else 0
  }

  /** The run's own callback is enqueued exactly once, when the run becomes terminal. */
  predicate NotifiedOnce(r: Run) {
    Sum(r.jobs, NoticeWeight()) == if Terminal(r.wf.state) && r.wf.onComplete.Some? then 1 else 0
  }

  function WaitingWeight(name: string): EventRow -> nat {
    (e: EventRow) => if IsWaiting(e, name) then 1 else 0
  }

  function ParkedWeight(name: string): StepRow -> nat {
    (s: StepRow) => if IsParked(s, name) then 1 else 0
  }

  /** Waiting events and pending event steps of a name are equally many. */
  ghost predicate Paired(r: Run) {
    forall name :: Sum(r.events, WaitingWeight(name)) == Sum(r.steps, ParkedWeight(name))
  }

  // ---------------------------------------------------------------- the saga

  /** Compensations dispatched so far, in order. */
  function UndoSteps(jobs: seq<Job>): seq<nat> {
    if jobs == [] then []
    else
      var last := jobs[|jobs| - 1];
      UndoSteps(jobs[..|jobs| - 1]) + if last.kind.UndoJob? then [last.kind.step] else []
  }

  /** The steps below `n` that an unwind has to visit, highest first. */
  function Descending(steps: seq<StepRow>, n: nat): seq<nat>
    requires n <= |steps|
  {
    if n == 0 then []
    else if Undoable(steps[n - 1]) then [n - 1] + Descending(steps, n - 1)
    else Descending(steps, n - 1)
  }

  /** The step whose compensation was dispatched last. */
  function Frontier(r: Run): nat {
    var undone := UndoSteps(r.jobs);
    if undone == [] then |r.steps| else undone[|undone| - 1]
  }

  /** Everything above the frontier is compensated, nothing below it has been touched. */
  predicate UnwoundTo(r: Run, f: nat)
    requires f <= |r.steps|
  {
    && UndoSteps(r.jobs) + Descending(r.steps, f) == Descending(r.steps, |r.steps|)
    && (forall i :: 0 <= i < f ==> r.steps[i].compensationJobId.None? && !r.steps[i].compensated)
    && (forall i :: f <= i < |r.steps| && Undoable(r.steps[i]) ==> r.steps[i].compensationJobId.Some?)
    && (forall i :: f < i < |r.steps| && Undoable(r.steps[i]) ==> r.steps[i].compensated)
  }

  /** The unwind stopped because the compensation of step `n` failed. */
  predicate HaltedAt(r: Run, n: nat) {
    r.wf.state.Failed? && r.wf.error.Some? && r.wf.error.value.UndoFailed? && r.wf.error.value.step == n
  }

  ghost predicate SagaOk(r: Run) {
    var f := Frontier(r);
    && f <= |r.steps|
    && UnwoundTo(r, f)
    && (f < |r.steps| ==>
          var s := r.steps[f];
          && Undoable(s) && s.compensationJobId.Some? && s.compensationJobId.value < |r.jobs|
          && (s.compensated || !r.jobs[s.compensationJobId.value].phase.Delivered? || HaltedAt(r, f)))
  }

  /** Some step is still going to be heard of. */
  ghost predicate Awaited(r: Run) {
    (exists j :: 0 <= j < |r.jobs| && r.jobs[j].kind.AdvanceJob? && r.jobs[j].phase.Queued?) || !Settled(r.steps)
  }

  ghost predicate NotStranded(r: Run) {
    r.wf.state.Running? ==> Awaited(r)
  }

  ghost predicate Core(r: Run) {
    Linked(r) && OneToken(r) && NotifiedOnce(r) && Paired(r) && SagaOk(r)
  }

  ghost predicate Inv(h: Handler, r: Run) {
    Core(r) && Shape(h, r.steps) && NotStranded(r)
  }
}
