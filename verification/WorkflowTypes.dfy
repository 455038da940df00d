/**
 The rows of the workflow component: what a handler asks for, the durable journal of its
 steps, the parked events, and the scheduler jobs of one run.
 */
module WorkflowTypes {
  import opened Prelude

  /** What one awaited step settles with. */
  datatype Outcome = Resolved(value: Json) | Rejected(error: string)

  datatype StepKind = MutationStep | QueryStep | ActionStep | SleepStep | WaitForEvent

  /** One call on the `step` object that a handler receives. */
  datatype Request =
    | RunMutation(fn: string, fnArgs: Json, attempts: Option<nat>, undo: Option<string>)
    | RunQuery(fn: string, fnArgs: Json)
    | RunAction(fn: string, fnArgs: Json, attempts: Option<nat>, undo: Option<string>)
    | SleepFor(ms: int)
    | SleepUntil(ts: int)
    | AwaitEvent(event: string)

  datatype StepOpts = StepOpts(runAt: Option<int>, maxAttempts: Option<nat>, compensateFnPath: Option<string>)

  const SLEEP_FN := "workflow:_sleep"
  const NO_ARGS: Json := "{}"

  function KindOf(q: Request): StepKind {
    match q
    case RunMutation(_, _, _, _) => MutationStep
    case RunQuery(_, _) => QueryStep
    case RunAction(_, _, _, _) => ActionStep
    case SleepFor(_) => SleepStep
    case SleepUntil(_) => SleepStep
    case AwaitEvent(_) => WaitForEvent
  }

  function NameOf(q: Request): string {
    match q
    case RunMutation(fn, _, _, _) => fn
    case RunQuery(fn, _) => fn
    case RunAction(fn, _, _, _) => fn
    case SleepFor(_) => SLEEP_FN
    case SleepUntil(_) => SLEEP_FN
    case AwaitEvent(event) => event
  }

  function ArgsOf(q: Request): Json {
    match q
    case RunMutation(_, args, _, _) => args
    case RunQuery(_, args) => args
    case RunAction(_, args, _, _) => args
    case _ => NO_ARGS
  }

  /** A sleep is timed from the clock of the poll that first emits it. */
  function OptsOf(q: Request, now: int): StepOpts {
    match q
    case RunMutation(_, _, attempts, undo) => StepOpts(None, attempts, undo)
    case RunAction(_, _, attempts, undo) => StepOpts(None, attempts, undo)
    case SleepFor(ms) => StepOpts(Some(now + ms), None, None)
    case SleepUntil(ts) => StepOpts(Some(ts), None, None)
    case _ => StepOpts(None, None, None)
  }

  /**
   What a handler does next, given every step outcome it has seen so far. `Await` is a wave:
   one plain await, or several steps started together whose outcomes are all awaited.
   `Foreign` is an await on something that is not a step.
   */
  datatype Act =
    | Return(result: Json)
    | Throw(error: string)
    | Await(first: Request, rest: seq<Request>)
    | Foreign

  /** A deterministic handler is a function of the outcomes seen so far. */
  type Handler = seq<Outcome> -> Act

  function Wave(a: Act): (reqs: seq<Request>)
    requires a.Await?
    ensures |reqs| > 0
  {
    [a.first] + a.rest
  }

  datatype StepState = Pending | Success(result: Json) | Failure(error: string)

  /** A row of the `steps` journal. */
  datatype StepRow = StepRow(
    stepNumber: nat,
    name: string,
    kind: StepKind,
    args: Json,
    state: StepState,
    scheduledJobId: Option<nat>,
    compensateFnPath: Option<string>,
    maxAttempts: Option<nat>,
    compensationJobId: Option<nat>,
    compensated: bool)

  /** A step the handler emitted that the journal does not hold yet. */
  datatype NewStep = NewStep(stepNumber: nat, name: string, kind: StepKind, args: Json, opts: StepOpts)

  datatype EventState = Waiting | Received(payload: Json)
  datatype EventRow = EventRow(name: string, state: EventState)

  /** A saga step that an unwind has to visit: a success with a (non-empty) compensation. */
  predicate Undoable(s: StepRow) {
    s.state.Success? && s.compensateFnPath.Some? && s.compensateFnPath.value != ""
  }

  predicate Owed(s: StepRow) {
    Undoable(s) && !s.compensated
  }

  datatype JobResult = JobOk(value: Json) | JobFailed(error: string) | JobCanceled

  /**
   The scheduler's jobs of this run. A job's completion callback is enqueued in the very
   transaction that makes the job terminal, so the two share one record: `Reported` is a
   terminal job whose callback has not run yet, `Delivered` one whose callback has.
   */
  datatype JobKind =
    | AdvanceJob
    | UnwindJob
    | ForwardJob(step: nat, gen: nat)
    | UndoJob(step: nat, gen: nat)
    | NotifyJob(path: string, notice: Notice)

  datatype Phase = Queued | Claimed | Reported(result: JobResult) | Delivered

  datatype Job = Job(kind: JobKind, fnPath: string, args: JobArgs, runAt: Option<int>, maxFailures: Option<nat>, phase: Phase)

  datatype JobArgs = NoArgs | StepArgs(args: Json) | UndoArgs(args: Json, result: Json)

  datatype Notice = SucceededWith(value: Json) | FailedWith(error: WfError) | WasCanceled

  datatype WfState = Running | Compensating | Completed | Failed | Canceled

  datatype WfError =
    | HandlerError(text: string)
    | JournalMismatch
    | StalledOnForeignAwait
    | CanceledByRequest
    | UndoFailed(step: nat, cause: string, original: Option<WfError>)
    | UndoFailedAt(step: nat)

  datatype Target = ToFailed | ToCanceled

  /** The `workflows` row. */
  datatype Workflow = Workflow(
    state: WfState,
    generationNumber: nat,
    result: Option<Json>,
    error: Option<WfError>,
    compensationTarget: Option<Target>,
    onComplete: Option<string>)

  predicate Terminal(s: WfState) {
    s.Completed? || s.Failed? || s.Canceled?
  }

  /** Everything the component stores for one run. */
  datatype Run = Run(wf: Workflow, steps: seq<StepRow>, events: seq<EventRow>, jobs: seq<Job>)
}
