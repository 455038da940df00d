/**
 The scheduler's job table and the mutations on it: enqueue, claim, complete, the lease sweep and
 the cascading cancel. Job ids are issued in increasing order.
 */
module SchedulerTable {
  import opened Prelude

  type JobId = nat

  datatype JobKind = MutationJob | ActionJob
  datatype JobState = Pending | InProgress | Succeeded | Failed | Canceled

  datatype Completion = CompletedWith(value: Json) | FailedWith(error: string) | WasCanceled

  /** A job's arguments: the caller's own, those of an `onComplete` callback, or those of a cadence job. */
  datatype JobArgs =
    | Args(json: Json)
    | CompletionArgs(jobId: JobId, context: Option<Json>, result: Completion)
    | CadenceArgs(cronName: string, cadenceId: JobId)

  datatype Job = Job(
    fnPath: string,
    kind: JobKind,
    state: JobState,
    nextTs: int,
    attempts: nat,
    maxFailures: nat,
    leaseExpiresAt: Option<int>,
    idempotencyKey: Option<string>,
    onComplete: Option<string>,
    parentId: Option<JobId>,
    completedTs: Option<int>,
    lastError: Option<string>,
    args: JobArgs,
    context: Option<Json>)

  predicate Terminal(s: JobState) {
    s.Succeeded? || s.Failed? || s.Canceled?
  }

  datatype EnqueueOpts = EnqueueOpts(
    runAfter: Option<int>,
    runAt: Option<int>,
    maxFailures: Option<nat>,
    onComplete: Option<string>,
    context: Option<Json>,
    idempotencyKey: Option<string>)

  const NO_OPTS := EnqueueOpts(None, None, None, None, None, None)
  const LEASE_MS := 30000
  const BATCH_CAP := 64
  const LEASE_EXPIRED := "lease expired: driver did not complete the job before its lease deadline (infra kill)"

  datatype JobResult = Ok(value: Json) | Err(error: string, retryable: bool)

  datatype Table = Table(jobs: map<JobId, Job>, nextId: JobId)

  /** Ids are issued below `nextId`, to jobs and to the parents they name. */
  ghost predicate Issued(t: Table) {
    forall j :: j in t.jobs ==> j < t.nextId && (t.jobs[j].parentId.Some? ==> t.jobs[j].parentId.value < t.nextId)
  }

  // ---------------------------------------------------------------- the mutations as functions

  function DueTime(opts: EnqueueOpts, now: int): int {
    if opts.runAt.Some? then opts.runAt.value
    else if opts.runAfter.Some? then now + (if opts.runAfter.value > 0 then opts.runAfter.value else 0)
    else now
  }

  /** A mutation may be retried, an action that failed cleanly may not, unless its author said so. */
  function RetryBudget(opts: EnqueueOpts, kind: JobKind): nat {
    if opts.maxFailures.Some? then opts.maxFailures.value else if kind.ActionJob? then 1 else 4
  }

  function NewJob(fnPath: string, kind: JobKind, args: JobArgs, opts: EnqueueOpts, parentId: Option<JobId>,
                  now: int): Job {
    Job(fnPath, kind, Pending, DueTime(opts, now), 0, RetryBudget(opts, kind), None,
        opts.idempotencyKey, opts.onComplete, parentId, None, None, args, opts.context)
  }

  function Insert(t: Table, job: Job): Table {
    Table(t.jobs[t.nextId := job], t.nextId + 1)
  }

  predicate HasKey(t: Table, key: string) {
    exists j :: j in t.jobs && t.jobs[j].idempotencyKey == Some(key)
  }

  /** `enqueueInternal`: a job is inserted unless one with the same idempotency key exists. */
  function Enqueue(t: Table, fnPath: string, kind: JobKind, args: JobArgs, opts: EnqueueOpts, now: int): Table {
    if opts.idempotencyKey.Some? && HasKey(t, opts.idempotencyKey.value) then t
    else Insert(t, NewJob(fnPath, kind, args, opts, None, now))
  }

  /** A job that has just been submitted: what it runs, when it is due, and how many failures it may have. */
  predicate AsSubmitted(job: Job, fnPath: string, kind: JobKind, args: JobArgs, opts: EnqueueOpts, parentId: Option<JobId>, now: int) {
    && job.fnPath == fnPath && job.kind == kind && job.args == args && job.parentId == parentId
    && job.onComplete == opts.onComplete && job.context == opts.context && job.idempotencyKey == opts.idempotencyKey
    && job.state.Pending? && job.attempts == 0 && job.leaseExpiresAt.None? && job.completedTs.None? && job.lastError.None?
    && (opts.runAt.Some? ==> job.nextTs == opts.runAt.value)
    && (opts.runAt.None? && opts.runAfter.Some? && opts.runAfter.value >= 0 ==> job.nextTs == now + opts.runAfter.value)
    && (opts.runAt.None? && (opts.runAfter.Some? ==> opts.runAfter.value < 0) ==> job.nextTs == now)
    && (opts.maxFailures.Some? ==> job.maxFailures == opts.maxFailures.value)
    && (opts.maxFailures.None? ==> job.maxFailures == (match kind case ActionJob => 1 case MutationJob => 4))
  }

  function CallbackJob(id: JobId, job: Job, result: Completion, now: int): Job
    requires job.onComplete.Some?
  {
    NewJob(job.onComplete.value, MutationJob, CompletionArgs(id, job.context, result), NO_OPTS.(runAt := Some(now)), None, now)
  }

  /** `fireOnComplete`: the callback of job `id`, if it has one. */
  function FireOnComplete(t: Table, id: JobId, job: Job, result: Completion, now: int): Table {
    if job.onComplete.None? then t else Insert(t, CallbackJob(id, job, result, now))
  }

  /** The terminal transition: the row, and the callback in the same transaction. */
  function Finish(t: Table, id: JobId, job: Job, result: Completion, now: int): Table {
    FireOnComplete(t.(jobs := t.jobs[id := job]), id, job, result, now)
  }

  /** `scheduler:_claim`. */
  function Claim(t: Table, id: JobId, now: int): Table {
    if id !in t.jobs || !t.jobs[id].state.Pending? then t
    else t.(jobs := t.jobs[id := t.jobs[id].(state := InProgress, leaseExpiresAt := Some(now + LEASE_MS))])
  }

  /** `scheduler:_complete`; `delay` is the jittered backoff. */
  function Complete(t: Table, id: JobId, result: JobResult, delay: nat, now: int): Table {
    if id !in t.jobs || !t.jobs[id].state.InProgress? then t
    else
      var job := t.jobs[id].(leaseExpiresAt := None);
      if result.Ok? then Finish(t, id, job.(state := Succeeded, completedTs := Some(now)), CompletedWith(result.value), now)
      else
        var failed := job.(attempts := job.attempts + 1, lastError := Some(result.error));
        if failed.attempts >= failed.maxFailures || !result.retryable
        then Finish(t, id, failed.(state := Failed, completedTs := Some(now)), FailedWith(result.error), now)
        else t.(jobs := t.jobs[id := failed.(state := Pending, nextTs := now + delay)])
  }

  predicate LeaseExpired(job: Job, now: int) {
    job.state.InProgress? && job.leaseExpiresAt.Some? && job.leaseExpiresAt.value < now
  }

  /** One job of the lease sweep. */
  function ReclaimOne(t: Table, id: JobId, now: int): Table
    requires id in t.jobs
  {
    var job := t.jobs[id].(attempts := t.jobs[id].attempts + 1, lastError := Some(LEASE_EXPIRED), leaseExpiresAt := None);
    if job.kind.MutationJob? && job.attempts < job.maxFailures
    then t.(jobs := t.jobs[id := job.(state := Pending, nextTs := now)])
    else Finish(t, id, job.(state := Failed, completedTs := Some(now)), FailedWith(LEASE_EXPIRED), now)
  }

  /** What the sweep's index scan may return: at most a batch of different jobs whose lease has expired. */
  ghost predicate ExpiredBatch(t: Table, batch: seq<JobId>, now: int) {
    && |batch| <= BATCH_CAP
    && (forall a :: 0 <= a < |batch| ==> batch[a] in t.jobs && LeaseExpired(t.jobs[batch[a]], now))
    && (forall a, b :: 0 <= a < b < |batch| ==> batch[a] != batch[b])
  }

  /** `scheduler:_reclaim` over the scanned batch. */
  function Reclaim(t: Table, batch: seq<JobId>, now: int): (s: Table)
    requires forall a :: 0 <= a < |batch| ==> batch[a] in t.jobs
    ensures t.jobs.Keys <= s.jobs.Keys
    decreases |batch|
  {
    if batch == [] then t else ReclaimOne(Reclaim(t, batch[..|batch| - 1], now), batch[|batch| - 1], now)
  }

  // ---------------------------------------------------------------- the cascading cancel

  /** The `by_parent` index. */
  function ChildrenOf(t: Table, p: JobId): set<JobId> {
    set j | j in t.jobs && t.jobs[j].parentId == Some(p)
  }

  /** Following parent pointers `n` times from `j`. */
  function Up(t: Table, j: JobId, n: nat): Option<JobId>
    decreases n
  {
    if n == 0 then Some(j)
    else if j in t.jobs && t.jobs[j].parentId.Some? then Up(t, t.jobs[j].parentId.value, n - 1)
    else None
  }

  /** `j` is `id` or one of its transitive descendants. */
  ghost predicate Descends(t: Table, id: JobId, j: JobId) {
    exists n: nat :: Up(t, j, n) == Some(id)
  }

  function CanceledRow(job: Job, now: int): Job {
    job.(state := Canceled, completedTs := Some(now))
  }

  /** The pending jobs among `id` and its descendants. */
  ghost function PendingFamily(t: Table, id: JobId): set<JobId> {
    set j | j in t.jobs && t.jobs[j].state.Pending? && Descends(t, id, j)
  }

  /**
   The jobs in `which` are canceled, every other row of `t` stays as it is, and the new rows are
   one callback for each canceled job that has one.
   */
  ghost predicate CanceledExactly(t: Table, s: Table, now: int, which: set<JobId>) {
    && t.nextId <= s.nextId && Issued(s) && t.jobs.Keys <= s.jobs.Keys
    && RowsCanceled(t, s, now, which)
    && NewRowsAreCallbacks(t, s, now, which)
    && EveryCallbackOnce(t, s, now, which)
  }

  ghost predicate RowsCanceled(t: Table, s: Table, now: int, which: set<JobId>)
    requires t.jobs.Keys <= s.jobs.Keys
  {
    forall j :: j in t.jobs ==> s.jobs[j] == if j in which then CanceledRow(t.jobs[j], now) else t.jobs[j]
  }

  /** `k` is a row the cancel added, and the callback of the canceled job `j`. */
  ghost predicate CallbackOf(t: Table, s: Table, now: int, k: JobId, j: JobId) {
    && k in s.jobs && k !in t.jobs && t.nextId <= k
    && j in t.jobs && t.jobs[j].onComplete.Some?
    && s.jobs[k] == CallbackJob(j, t.jobs[j], WasCanceled, now)
  }

  ghost predicate NewRowsAreCallbacks(t: Table, s: Table, now: int, which: set<JobId>) {
    forall k :: k in s.jobs && k !in t.jobs ==>
      s.jobs[k].args.CompletionArgs? && s.jobs[k].args.jobId in which && CallbackOf(t, s, now, k, s.jobs[k].args.jobId)
  }

  ghost predicate EveryCallbackOnce(t: Table, s: Table, now: int, which: set<JobId>) {
    && (forall j :: j in which && j in t.jobs && t.jobs[j].onComplete.Some? ==> exists k :: CallbackOf(t, s, now, k, j))
    && (forall j, k, l :: CallbackOf(t, s, now, k, j) && CallbackOf(t, s, now, l, j) ==> k == l)
  }

  lemma CancelOneMore(t: Table, s: Table, now: int, which: set<JobId>, j: JobId)
    requires CanceledExactly(t, s, now, which) && j in t.jobs && j !in which
    ensures CanceledExactly(t, Finish(s, j, CanceledRow(s.jobs[j], now), WasCanceled, now), now, which + {j})
  {
    var u := Finish(s, j, CanceledRow(s.jobs[j], now), WasCanceled, now);
    CancelOneMoreRow(t, s, now, which, j);
    CancelOneMoreCallbacks(t, s, u, now, which, j);
  }

  /** The row, and the only callback that is new. */
  lemma CancelOneMoreRow(t: Table, s: Table, now: int, which: set<JobId>, j: JobId)
    requires t.nextId <= s.nextId && Issued(s) && t.jobs.Keys <= s.jobs.Keys
    requires RowsCanceled(t, s, now, which) && j in t.jobs && j !in which
    ensures var u := Finish(s, j, CanceledRow(s.jobs[j], now), WasCanceled, now);
            && t.nextId <= u.nextId && Issued(u) && t.jobs.Keys <= u.jobs.Keys && RowsCanceled(t, u, now, which + {j})
            && (forall k, i :: CallbackOf(t, s, now, k, i) ==> CallbackOf(t, u, now, k, i))
            && (forall k, i :: CallbackOf(t, u, now, k, i) ==> CallbackOf(t, s, now, k, i) || (k == s.nextId && i == j))
            && (forall k :: k in u.jobs ==> k in s.jobs || (k == s.nextId && CallbackOf(t, u, now, k, j)))
            && (t.jobs[j].onComplete.Some? ==> CallbackOf(t, u, now, s.nextId, j))
  {
  }

  lemma CancelOneMoreCallbacks(t: Table, s: Table, u: Table, now: int, which: set<JobId>, j: JobId)
    requires NewRowsAreCallbacks(t, s, now, which) && EveryCallbackOnce(t, s, now, which)
    requires j in t.jobs && j !in which && Issued(s) && t.nextId <= s.nextId
    requires forall k, i :: CallbackOf(t, s, now, k, i) ==> CallbackOf(t, u, now, k, i)
    requires forall k, i :: CallbackOf(t, u, now, k, i) ==> CallbackOf(t, s, now, k, i) || (k == s.nextId && i == j)
    requires forall k :: k in u.jobs ==> k in s.jobs || (k == s.nextId && CallbackOf(t, u, now, k, j))
    requires t.jobs[j].onComplete.Some? ==> CallbackOf(t, u, now, s.nextId, j)
    ensures NewRowsAreCallbacks(t, u, now, which + {j}) && EveryCallbackOnce(t, u, now, which + {j})
  {
  }

  /** The jobs a cascade that has visited `seen` has canceled. */
  ghost function PendingIn(t: Table, seen: set<JobId>): set<JobId> {
    set j | j in t.jobs && j in seen && t.jobs[j].state.Pending?
  }

  /** The cascade's frontier: the children of every visited id that is no longer queued have been visited. */
  ghost predicate Explored(t: Table, seen: set<JobId>, queue: seq<JobId>) {
    && (forall q :: q in queue ==> q in seen)
    && (forall j :: (j in t.jobs && t.jobs[j].parentId.Some? && t.jobs[j].parentId.value in seen
                     && t.jobs[j].parentId.value !in queue) ==> j in seen)
  }

  ghost predicate AllDescend(t: Table, id: JobId, seen: set<JobId>) {
    forall j :: j in seen ==> Descends(t, id, j)
  }

  lemma {:induction false} ClosedUnderChildren(t: Table, id: JobId, seen: set<JobId>, j: JobId, n: nat)
    requires id in seen && Up(t, j, n) == Some(id)
    requires forall k :: k in t.jobs && t.jobs[k].parentId.Some? && t.jobs[k].parentId.value in seen ==> k in seen
    ensures j in seen
    decreases n
  {
    if n > 0 {
      ClosedUnderChildren(t, id, seen, t.jobs[j].parentId.value, n - 1);
    }
  }

  /** One child more. */
  lemma VisitOne(t: Table, s: Table, now: int, seen: set<JobId>, child: JobId)
    requires CanceledExactly(t, s, now, PendingIn(t, seen)) && child in t.jobs && child !in seen
    ensures var u := if s.jobs[child].state.Pending? then Finish(s, child, CanceledRow(s.jobs[child], now), WasCanceled, now) else s;
            CanceledExactly(t, u, now, PendingIn(t, seen + {child}))
  {
    if t.jobs[child].state.Pending? {
      CancelOneMore(t, s, now, PendingIn(t, seen), child);
      assert PendingIn(t, seen + {child}) == PendingIn(t, seen) + {child};
    } else {
      assert PendingIn(t, seen + {child}) == PendingIn(t, seen);
    }
  }

  /** The callbacks a cancel adds are nobody's children. */
  lemma ChildrenUnchanged(t: Table, s: Table, now: int, which: set<JobId>, p: JobId)
    requires CanceledExactly(t, s, now, which)
    ensures ChildrenOf(s, p) == ChildrenOf(t, p)
  {
  }

  /** Once nothing is queued, the visited ids are the family. */
  lemma FamilyIsSeen(t: Table, id: JobId, seen: set<JobId>)
    requires id in seen && AllDescend(t, id, seen) && Explored(t, seen, [])
    ensures PendingIn(t, seen) == PendingFamily(t, id)
  {
    forall j | j in t.jobs && Descends(t, id, j) ensures j in seen {
      var n: nat :| Up(t, j, n) == Some(id);
      ClosedUnderChildren(t, id, seen, j, n);
    }
  }

  lemma ChildrenDescend(t: Table, id: JobId, p: JobId)
    requires Descends(t, id, p)
    ensures AllDescend(t, id, ChildrenOf(t, p))
  {
    var n: nat :| Up(t, p, n) == Some(id);
    forall j | j in ChildrenOf(t, p) ensures Descends(t, id, j) {
      assert Up(t, j, n + 1) == Some(id);
    }
  }

  // ---------------------------------------------------------------- the mutations as methods

  class JobDb {
    var jobs: map<JobId, Job>
    var nextId: JobId

    ghost function Rows(): Table
      reads this
    {
      Table(jobs, nextId)
    }

    constructor Empty()
      ensures Rows() == Table(map[], 0)
    {
      jobs, nextId := map[], 0;
    }

    method InsertRow(job: Job) returns (id: JobId)
      modifies this
      ensures id == old(nextId) && Rows() == Insert(old(Rows()), job)
    {
      id := nextId;
      jobs, nextId := jobs[nextId := job], nextId + 1;
    }

    method EnqueueInternal(fnPath: string, kind: JobKind, args: JobArgs, opts: EnqueueOpts,
                           now: int) returns (id: JobId)
      modifies this
      ensures Rows() == Enqueue(old(Rows()), fnPath, kind, args, opts, now)
      ensures id in jobs
      ensures opts.idempotencyKey.Some? ==> jobs[id].idempotencyKey == opts.idempotencyKey
      ensures opts.idempotencyKey.None? ==> id == old(nextId)
      ensures if opts.idempotencyKey.Some? && HasKey(old(Rows()), opts.idempotencyKey.value) then Rows() == old(Rows())
              else id == old(nextId) && Rows().jobs == old(jobs)[id := jobs[id]] && AsSubmitted(jobs[id], fnPath, kind, args, opts, None, now)
    {
      if opts.idempotencyKey.Some? {
        var found := set j | j in jobs && jobs[j].idempotencyKey == opts.idempotencyKey;
        if found != {} {
          id :| id in found;
          return;
        }
        assert !HasKey(Rows(), opts.idempotencyKey.value) by {
          forall j | j in jobs ensures jobs[j].idempotencyKey != opts.idempotencyKey {
            assert j !in found;
          }
        }
      }
      id := InsertRow(NewJob(fnPath, kind, args, opts, None, now));
    }

    method FireCallback(id: JobId, job: Job, result: Completion, now: int)
      modifies this
      ensures Rows() == FireOnComplete(old(Rows()), id, job, result, now)
    {
      if job.onComplete.Some? {
        var _ := InsertRow(CallbackJob(id, job, result, now));
      }
    }

    method ClaimJob(id: JobId, now: int) returns (claimed: bool)
      modifies this
      ensures Rows() == Claim(old(Rows()), id, now)
      ensures claimed <==> id in old(jobs) && old(jobs)[id].state.Pending?
    {
      if id !in jobs || !jobs[id].state.Pending? {
        return false;
      }
      jobs := jobs[id := jobs[id].(state := InProgress, leaseExpiresAt := Some(now + LEASE_MS))];
      return true;
    }

    method CompleteJob(id: JobId, result: JobResult, delay: nat, now: int)
      modifies this
      ensures Rows() == Complete(old(Rows()), id, result, delay, now)
    {
      if id !in jobs || !jobs[id].state.InProgress? {
        return;
      }
      var job := jobs[id].(leaseExpiresAt := None);
      if result.Ok? {
        job := job.(state := Succeeded, completedTs := Some(now));
        jobs := jobs[id := job];
        FireCallback(id, job, CompletedWith(result.value), now);
        return;
      }
      job := job.(attempts := job.attempts + 1, lastError := Some(result.error));
      if job.attempts >= job.maxFailures || !result.retryable {
        job := job.(state := Failed, completedTs := Some(now));
        jobs := jobs[id := job];
        FireCallback(id, job, FailedWith(result.error), now);
        return;
      }
      jobs := jobs[id := job.(state := Pending, nextTs := now + delay)];
    }

    method ReclaimExpired(batch: seq<JobId>, now: int) returns (reclaimed: nat)
      requires ExpiredBatch(Rows(), batch, now)
      modifies this
      ensures Rows() == Reclaim(old(Rows()), batch, now) && reclaimed == |batch|
    {
      reclaimed := 0;
      for i := 0 to |batch|
        invariant reclaimed == i
        invariant Rows() == Reclaim(old(Rows()), batch[..i], now)
      {
        assert batch[..i + 1][..i] == batch[..i];
        var id := batch[i];
        var job := jobs[id].(attempts := jobs[id].attempts + 1, lastError := Some(LEASE_EXPIRED), leaseExpiresAt := None);
        if job.kind.MutationJob? && job.attempts < job.maxFailures {
          jobs := jobs[id := job.(state := Pending, nextTs := now)];
        } else {
          job := job.(state := Failed, completedTs := Some(now));
          jobs := jobs[id := job];
          FireCallback(id, job, FailedWith(LEASE_EXPIRED), now);
        }
        reclaimed := reclaimed + 1;
      }
      assert batch[..|batch|] == batch;
    }

    /** Cancels one job if nobody has claimed it. */
    method CancelIfPending(id: JobId, now: int)
      modifies this
      ensures Rows() ==
              if id in old(jobs) && old(jobs)[id].state.Pending?
              then Finish(old(Rows()), id, CanceledRow(old(jobs)[id], now), WasCanceled, now)
              else old(Rows())
    {
      if id in jobs && jobs[id].state.Pending? {
        jobs := jobs[id := CanceledRow(jobs[id], now)];
        FireCallback(id, jobs[id], WasCanceled, now);
      }
    }

    method VisitChild(child: JobId, ghost seen: set<JobId>, ghost t: Table, now: int)
      requires child in t.jobs && child !in seen && CanceledExactly(t, Rows(), now, PendingIn(t, seen))
      modifies this
      ensures CanceledExactly(t, Rows(), now, PendingIn(t, seen + {child}))
    {
      VisitOne(t, Rows(), now, seen, child);
      CancelIfPending(child, now);
    }

    /** The inner loop of a cascading cancel: visit the children of one id; `added` are the ones to queue. */
    method VisitChildren(parentId: JobId, seen: set<JobId>, ghost t: Table, now: int)
      returns (added: seq<JobId>, seen': set<JobId>)
      requires CanceledExactly(t, Rows(), now, PendingIn(t, seen))
      modifies this
      ensures CanceledExactly(t, Rows(), now, PendingIn(t, seen'))
      ensures seen' == seen + ChildrenOf(t, parentId)
      ensures forall j :: j in added <==> j in seen' && j !in seen
    {
      added, seen' := [], seen;
      ChildrenUnchanged(t, Rows(), now, PendingIn(t, seen), parentId);
      var children := ChildrenOf(Table(jobs, nextId), parentId);
      while children != {}
        invariant children <= ChildrenOf(t, parentId)
        invariant forall j :: j in seen' <==> j in seen || (j in ChildrenOf(t, parentId) && j !in children)
        invariant forall j :: j in added <==> j in seen' && j !in seen
        invariant CanceledExactly(t, Rows(), now, PendingIn(t, seen'))
        decreases children
      {
        var child :| child in children;
        children := children - {child};
        if child !in seen' {
          VisitChild(child, seen', t, now);
          seen' := seen' + {child};
          added := added + [child];
        }
      }
    }

    /** `ctx.scheduler.cancel`: breadth-first over the children of children, each id visited once. */
    method Cancel(id: JobId, now: int)
      requires Issued(Rows())
      modifies this
      ensures CanceledExactly(old(Rows()), Rows(), now, PendingFamily(old(Rows()), id))
    {
      ghost var t := Rows();
      CancelIfPending(id, now);
      var queue, seen := [id], {id};
      assert Up(t, id, 0) == Some(id);
      assert CanceledExactly(t, Rows(), now, PendingIn(t, seen)) by {
        if id in t.jobs && t.jobs[id].state.Pending? {
          CancelOneMore(t, t, now, {}, id);
          assert PendingIn(t, {id}) == {} + {id};
        } else {
          assert PendingIn(t, {id}) == {};
        }
      }
      while |queue| > 0
        invariant id in seen && AllDescend(t, id, seen) && Explored(t, seen, queue)
        invariant CanceledExactly(t, Rows(), now, PendingIn(t, seen))
        decreases t.jobs.Keys - seen, |queue|
      {
        var parentId := queue[0];
        ghost var before, rest := seen, queue[1..];
        assert queue == [parentId] + rest;
        var added;
        added, seen := VisitChildren(parentId, seen, t, now);
        queue := queue[1..] + added;
        ChildrenDescend(t, id, parentId);
        if added != [] {
          assert added[0] in seen && added[0] !in before && added[0] in ChildrenOf(t, parentId);
        }
      }
      FamilyIsSeen(t, id, seen);
    }
  }
}
