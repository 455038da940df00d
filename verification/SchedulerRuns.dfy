/**
 Whole runs of the scheduler's table: any interleaving of enqueues, claims, completions (late and
 repeated ones too), lease sweeps and cancels, starting from an empty table.
 */
module SchedulerRuns {
  import opened Prelude
  import opened SchedulerTable

  datatype Label =
    | Submitting(fnPath: string, kind: JobKind, json: Json, opts: EnqueueOpts, parent: Option<JobId>, now: int)
    | Claiming(id: JobId, now: int)
    | Completing(id: JobId, result: JobResult, delay: nat, now: int)
    | Sweeping(batch: seq<JobId>, now: int)
    | Canceling(id: JobId, now: int)

  /** The facade submits without a parent; rows with one are allowed so that cascades have something to walk. */
  function Submit(t: Table, fnPath: string, kind: JobKind, json: Json, opts: EnqueueOpts, parent: Option<JobId>,
                  now: int): Table {
    if opts.idempotencyKey.Some? && HasKey(t, opts.idempotencyKey.value) then t
    else Insert(t, NewJob(fnPath, kind, Args(json), opts, parent, now))
  }

  ghost predicate Allowed(t: Table, l: Label, s: Table) {
    match l
    case Submitting(fnPath, kind, json, opts, parent, now) =>
      (parent.Some? ==> parent.value < t.nextId) && s == Submit(t, fnPath, kind, json, opts, parent, now)
    case Claiming(id, now) => s == Claim(t, id, now)
    case Completing(id, result, delay, now) => s == Complete(t, id, result, delay, now)
    case Sweeping(batch, now) => ExpiredBatch(t, batch, now) && s == Reclaim(t, batch, now)
    case Canceling(id, now) => CanceledExactly(t, s, now, PendingFamily(t, id))
  }

  datatype Trace = Empty | Then(before: Trace, step: Label, after: Table)

  function Last(tr: Trace): Table {
    if tr.Empty? then Table(map[], 0) else tr.after
  }

  ghost predicate Valid(tr: Trace) {
    tr.Then? ==> Valid(tr.before) && Allowed(Last(tr.before), tr.step, tr.after)
  }

  /** How often job `id` was handed to a driver, that is, how often its function was run. */
  function Claims(tr: Trace, id: JobId): nat {
    if tr.Empty? then 0
    else Claims(tr.before, id) + if Claimed(Last(tr.before), tr.step, id) then 1 else 0
  }

  // ---------------------------------------------------------------- what one step does to a row

  /** The fields no mutation rewrites. */
  predicate SameIdentity(a: Job, b: Job) {
    && a.fnPath == b.fnPath && a.kind == b.kind && a.maxFailures == b.maxFailures && a.idempotencyKey == b.idempotencyKey
    && a.onComplete == b.onComplete && a.parentId == b.parentId && a.args == b.args && a.context == b.context
  }

  predicate Claimed(t: Table, l: Label, id: JobId) {
    l.Claiming? && l.id == id && id in t.jobs && t.jobs[id].state.Pending?
  }

  /** How a row may move: not at all, by a claim, by a success, by a counted failure, or by a cancel. */
  predicate Moves(before: Job, after: Job, claimed: bool) {
    && SameIdentity(before, after)
    && (if claimed then
          before.state.Pending? && after.state.InProgress? && after.attempts == before.attempts && after.leaseExpiresAt.Some?
        else
          || after == before
          || (before.state.InProgress? && after.state.Succeeded? && after.attempts == before.attempts && after.leaseExpiresAt.None?)
          || (before.state.InProgress? && after.attempts == before.attempts + 1 && after.leaseExpiresAt.None?
              && (after.state.Failed? || (after.state.Pending? && after.attempts < before.maxFailures)))
          || (before.state.Pending? && after == CanceledRow(before, if after.completedTs.Some? then after.completedTs.value else 0)))
  }

  /** A row that has just been inserted. */
  predicate Newborn(job: Job) {
    job.state.Pending? && job.attempts == 0 && job.leaseExpiresAt.None?
  }

  lemma ReclaimOneMoves(t: Table, id: JobId, now: int, k: JobId)
    requires id in t.jobs && t.jobs[id].state.InProgress? && forall j :: j in t.jobs ==> j < t.nextId
    ensures var s := ReclaimOne(t, id, now);
            && t.nextId <= s.nextId && (forall j :: j in s.jobs ==> j < s.nextId)
            && (k in t.jobs && k != id ==> s.jobs[k] == t.jobs[k])
            && (k == id ==> Moves(t.jobs[id], s.jobs[id], false) && !s.jobs[id].state.InProgress?
                            && (t.jobs[id].kind.ActionJob? ==> s.jobs[id].state.Failed?))
            && (k in s.jobs && k !in t.jobs ==> t.nextId <= k && Newborn(s.jobs[k]))
  {
  }

  /** The sweep moves each job of its batch once, and no other. */
  lemma {:induction false} ReclaimMoves(t: Table, batch: seq<JobId>, now: int, k: JobId)
    requires ExpiredBatch(t, batch, now) && forall j :: j in t.jobs ==> j < t.nextId
    ensures var s := Reclaim(t, batch, now);
            && t.nextId <= s.nextId && (forall j :: j in s.jobs ==> j < s.nextId)
            && (k in t.jobs && k !in batch ==> s.jobs[k] == t.jobs[k])
            && (k in t.jobs && k in batch ==> Moves(t.jobs[k], s.jobs[k], false) && !s.jobs[k].state.InProgress?
                                              && (t.jobs[k].kind.ActionJob? ==> s.jobs[k].state.Failed?))
            && (k in s.jobs && k !in t.jobs ==> t.nextId <= k && Newborn(s.jobs[k]))
    decreases |batch|
  {
    if batch != [] {
      var n := |batch| - 1;
      var front, last := batch[..n], batch[n];
      assert last !in front && batch == front + [last];
      ReclaimMoves(t, front, now, k);
      ReclaimMoves(t, front, now, last);
      ReclaimOneMoves(Reclaim(t, front, now), last, now, k);
    }
  }

  lemma CancelMoves(t: Table, s: Table, now: int, which: set<JobId>, k: JobId)
    requires CanceledExactly(t, s, now, which) && forall j :: j in which ==> j in t.jobs && t.jobs[j].state.Pending?
    ensures k in t.jobs ==> k in s.jobs && Moves(t.jobs[k], s.jobs[k], false)
    ensures k in s.jobs && k !in t.jobs ==> t.nextId <= k && Newborn(s.jobs[k])
  {
  }

  /** Any step: rows move as `Moves` says, ids keep growing, and new rows are newborn. */
  lemma StepMoves(t: Table, l: Label, s: Table, k: JobId)
    requires Allowed(t, l, s) && forall j :: j in t.jobs ==> j < t.nextId
    ensures t.nextId <= s.nextId && (forall j :: j in s.jobs ==> j < s.nextId)
    ensures k in t.jobs ==> k in s.jobs && Moves(t.jobs[k], s.jobs[k], Claimed(t, l, k))
    ensures k in s.jobs && k !in t.jobs ==> t.nextId <= k && Newborn(s.jobs[k])
  {
    match l
    case Submitting(fnPath, kind, json, opts, parent, now) =>
    case Claiming(id, now) =>
    case Completing(id, result, delay, now) =>
    case Sweeping(batch, now) => ReclaimMoves(t, batch, now, k);
    case Canceling(id, now) => CancelMoves(t, s, now, PendingFamily(t, id), k);
  }

  // ---------------------------------------------------------------- the retry budget

  function Budget(job: Job): nat {
    if job.maxFailures == 0 then 1 else job.maxFailures
  }

  /** Every claim of a job either failed (and was counted), is still going on, or succeeded. */
  predicate Accounted(job: Job, claims: nat) {
    && claims == job.attempts + (if job.state.InProgress? || job.state.Succeeded? then 1 else 0)
    && (job.state.Pending? || job.state.InProgress? ==> job.attempts < Budget(job))
    && claims <= Budget(job)
  }

  ghost predicate AllAccounted(tr: Trace) {
    var t := Last(tr);
    && (forall id :: id in t.jobs ==> id < t.nextId && Accounted(t.jobs[id], Claims(tr, id)))
    && (forall id :: id >= t.nextId ==> Claims(tr, id) == 0)
  }

  lemma {:induction false} EveryClaimAccounted(tr: Trace)
    requires Valid(tr)
    ensures AllAccounted(tr)
  {
    if tr.Then? {
      EveryClaimAccounted(tr.before);
      var t, s := Last(tr.before), tr.after;
      StepMoves(t, tr.step, s, 0);
      forall id | id in s.jobs ensures id < s.nextId && Accounted(s.jobs[id], Claims(tr, id)) {
        StepMoves(t, tr.step, s, id);
      }
    }
  }

  /**
   Retry budget: over any mix of failures, lease expiries, late completions and cancels a job is
   claimed at most `maxFailures` times (once, if that is zero), and each claim that did not end in
   success or is not still going on has been counted as an attempt.
   */
  lemma ClaimsWithinBudget(tr: Trace, id: JobId)
    requires Valid(tr) && id in Last(tr).jobs
    ensures var job := Last(tr).jobs[id];
            && Claims(tr, id) <= (if job.maxFailures >= 1 then job.maxFailures else 1)
            && Claims(tr, id) == job.attempts + (if job.state.InProgress? || job.state.Succeeded? then 1 else 0)
  {
    EveryClaimAccounted(tr);
  }

  // ---------------------------------------------------------------- terminal states absorb

  /** `later` continues `tr`. */
  ghost predicate Continues(tr: Trace, later: Trace) {
    later == tr || (later.Then? && Continues(tr, later.before))
  }

  /** Terminal states absorb: the row never changes again, and the job is never claimed again. */
  lemma {:induction false} TerminalAbsorbs(tr: Trace, later: Trace, id: JobId)
    requires Valid(later) && Continues(tr, later)
    requires id in Last(tr).jobs && Terminal(Last(tr).jobs[id].state)
    ensures id in Last(later).jobs && Last(later).jobs[id] == Last(tr).jobs[id] && Claims(later, id) == Claims(tr, id)
  {
    if later != tr {
      TerminalAbsorbs(tr, later.before, id);
      EveryClaimAccounted(later.before);
      StepMoves(Last(later.before), later.step, later.after, id);
    }
  }

  lemma {:induction false} ContinuesValid(tr: Trace, later: Trace)
    requires Valid(later) && Continues(tr, later)
    ensures Valid(tr)
  {
    if later != tr {
      ContinuesValid(tr, later.before);
    }
  }

  // ---------------------------------------------------------------- an action that is claimed again

  /** The step reports a retryable failure of job `id`, and the budget allows another attempt. */
  predicate ReportsRetry(t: Table, l: Label, id: JobId) {
    && l.Completing? && l.id == id && l.result.Err? && l.result.retryable
    && id in t.jobs && t.jobs[id].state.InProgress? && t.jobs[id].attempts + 1 < t.jobs[id].maxFailures
  }

  /** Between `tr` and `later` a retry of the claim that is going on in `tr` was reported. */
  ghost predicate RetryReported(tr: Trace, later: Trace, id: JobId) {
    && later != tr && later.Then?
    && (RetryReported(tr, later.before, id)
        || (id in Last(tr).jobs && id in Last(later.before).jobs && Last(later.before).jobs[id] == Last(tr).jobs[id]
            && ReportsRetry(Last(later.before), later.step, id)))
  }

  lemma ActionStep(t: Table, l: Label, s: Table, id: JobId)
    requires Allowed(t, l, s) && (forall j :: j in t.jobs ==> j < t.nextId)
    requires id in t.jobs && t.jobs[id].state.InProgress? && t.jobs[id].kind.ActionJob?
    ensures id in s.jobs && (s.jobs[id] == t.jobs[id] || Terminal(s.jobs[id].state) || ReportsRetry(t, l, id))
  {
    StepMoves(t, l, s, id);
    if l.Sweeping? {
      ReclaimMoves(t, l.batch, l.now, id);
    }
    if l.Canceling? {
      CancelMoves(t, s, l.now, PendingFamily(t, l.id), id);
    }
  }

  /** What becomes of a claimed action: it is still going on, or it has ended, or a retry was reported. */
  lemma {:induction false} ActionFate(tr: Trace, later: Trace, id: JobId)
    requires Valid(later) && Continues(tr, later)
    requires id in Last(tr).jobs && Last(tr).jobs[id].state.InProgress? && Last(tr).jobs[id].kind.ActionJob?
    ensures id in Last(later).jobs
    ensures RetryReported(tr, later, id)
            || (Claims(later, id) == Claims(tr, id) && (Last(later).jobs[id] == Last(tr).jobs[id] || Terminal(Last(later).jobs[id].state)))
  {
    if later != tr {
      ActionFate(tr, later.before, id);
      EveryClaimAccounted(later.before);
      StepMoves(Last(later.before), later.step, later.after, id);
      if Last(later.before).jobs[id] == Last(tr).jobs[id] {
        ActionStep(Last(later.before), later.step, later.after, id);
      }
    }
  }

  /**
   An action that is going on is claimed again only after a retryable failure of that very claim was
   reported with budget left; the lease sweep never gives it back.
   */
  lemma ReclaimedOnlyByReport(tr: Trace, later: Trace, id: JobId)
    requires Valid(later) && Continues(tr, later)
    requires id in Last(tr).jobs && Last(tr).jobs[id].state.InProgress? && Last(tr).jobs[id].kind.ActionJob?
    ensures Claims(later, id) > Claims(tr, id) ==> RetryReported(tr, later, id)
  {
    ActionFate(tr, later, id);
  }

  /** An action that the lease sweep took is dead-lettered, and from then on never claimed again. */
  lemma SweptActionIsNeverReclaimed(tr: Trace, later: Trace, batch: seq<JobId>, now: int, id: JobId)
    requires Valid(later) && tr.Then? && Continues(tr, later) && tr.step == Sweeping(batch, now)
    requires id in batch && id in Last(tr.before).jobs && Last(tr.before).jobs[id].kind.ActionJob?
    ensures id in Last(later).jobs && Last(later).jobs[id].state.Failed?
    ensures Claims(later, id) == Claims(tr.before, id)
  {
    ContinuesValid(tr, later);
    EveryClaimAccounted(tr.before);
    ReclaimMoves(Last(tr.before), batch, now, id);
    TerminalAbsorbs(tr, later, id);
  }

  /** A failure that is reported late counts like any other, even if the lease expired before: the job is claimed again. */
  lemma ReportAndClaim(tr: Trace, id: JobId, error: string, delay: nat, now: int, again: int) returns (later: Trace)
    requires Valid(tr) && id in Last(tr).jobs && Last(tr).jobs[id].state.InProgress?
    requires Last(tr).jobs[id].attempts + 1 < Last(tr).jobs[id].maxFailures
    ensures Valid(later) && Continues(tr, later) && Claims(later, id) == Claims(tr, id) + 1
    ensures later.Then? && later.step == Claiming(id, again)
    ensures later.before.Then? && later.before.before == tr && later.before.step == Completing(id, Err(error, true), delay, now)
    ensures id in Last(later).jobs && Last(later).jobs[id].state.InProgress?
  {
    var report := Completing(id, Err(error, true), delay, now);
    var reported := Then(tr, report, Complete(Last(tr), id, report.result, delay, now));
    assert Claims(reported, id) == Claims(tr, id);
    later := Then(reported, Claiming(id, again), Claim(reported.after, id, again));
    assert Continues(tr, tr) && Continues(tr, reported);
  }

  /**
   Whether its lease has expired or not, a job that is going on can still be claimed again if and only if
   its budget allows one more failure.
   */
  lemma CanBeClaimedAgainIff(tr: Trace, id: JobId)
    requires Valid(tr) && id in Last(tr).jobs && Last(tr).jobs[id].state.InProgress?
    ensures (exists later :: Valid(later) && Continues(tr, later) && Claims(later, id) > Claims(tr, id))
            <==> Last(tr).jobs[id].attempts + 1 < Last(tr).jobs[id].maxFailures
  {
    var job := Last(tr).jobs[id];
    if job.attempts + 1 < job.maxFailures {
      var later := ReportAndClaim(tr, id, "", 0, 0, 0);
    } else {
      forall later | Valid(later) && Continues(tr, later) ensures Claims(later, id) <= Claims(tr, id) {
        LastClaim(tr, later, id);
      }
    }
  }

  /** The last claim the budget allows. */
  lemma LastClaim(tr: Trace, later: Trace, id: JobId)
    requires Valid(later) && Continues(tr, later)
    requires id in Last(tr).jobs && Last(tr).jobs[id].state.InProgress? && Last(tr).jobs[id].attempts + 1 >= Last(tr).jobs[id].maxFailures
    ensures Claims(later, id) <= Claims(tr, id)
  {
    ContinuesValid(tr, later);
    IdentityStays(tr, later, id);
    ClaimsWithinBudget(tr, id);
    ClaimsWithinBudget(later, id);
  }

  lemma {:induction false} IdentityStays(tr: Trace, later: Trace, id: JobId)
    requires Valid(later) && Continues(tr, later) && id in Last(tr).jobs
    ensures id in Last(later).jobs && SameIdentity(Last(tr).jobs[id], Last(later).jobs[id])
  {
    if later != tr {
      IdentityStays(tr, later.before, id);
      EveryClaimAccounted(later.before);
      StepMoves(Last(later.before), later.step, later.after, id);
    }
  }

  /** An action that is claimed, outlives its lease, and is claimed again, because its failure was reported before the sweep. */
  lemma ExpiredActionClaimedAgain(fnPath: string, json: Json, error: string) returns (tr: Trace, later: Trace)
    ensures Valid(later) && Continues(tr, later) && 0 in Last(tr).jobs
    ensures Last(tr).jobs[0].kind.ActionJob? && LeaseExpired(Last(tr).jobs[0], 40000)
    ensures later.Then? && later.before.Then? && later.before.before == tr
    ensures later.before.step == Completing(0, Err(error, true), 0, 40000) && later.step == Claiming(0, 50000)
    ensures Claims(tr, 0) == 1 && Claims(later, 0) == 2
  {
    var opts := NO_OPTS.(maxFailures := Some(3));
    var submitted := Then(Empty, Submitting(fnPath, ActionJob, json, opts, None, 0), Submit(Last(Empty), fnPath, ActionJob, json, opts, None, 0));
    assert Claims(submitted, 0) == 0;
    tr := Then(submitted, Claiming(0, 0), Claim(submitted.after, 0, 0));
    later := ReportAndClaim(tr, 0, error, 0, 40000, 50000);
  }

  // ---------------------------------------------------------------- callbacks

  /** Row `k` is the completion callback of job `id`. */
  predicate IsCallback(t: Table, k: JobId, id: JobId) {
    k in t.jobs && t.jobs[k].args.CompletionArgs? && t.jobs[k].args.jobId == id
  }

  /** A callback goes to the job's own handler, with the job's context and the outcome on its row. */
  predicate CallbackFits(job: Job, callback: Job)
    requires callback.args.CompletionArgs?
  {
    && Terminal(job.state) && job.onComplete == Some(callback.fnPath) && callback.kind.MutationJob?
    && callback.args.context == job.context
    && match job.state
       case Succeeded => callback.args.result.CompletedWith?
       case Failed => job.lastError.Some? && callback.args.result == FailedWith(job.lastError.value)
       case _ => callback.args.result == WasCanceled
  }

  ghost predicate CallbacksOnce(t: Table) {
    && (forall k :: k in t.jobs && t.jobs[k].args.CompletionArgs? ==>
          t.jobs[k].args.jobId in t.jobs && CallbackFits(t.jobs[t.jobs[k].args.jobId], t.jobs[k]))
    && (forall id :: id in t.jobs && Terminal(t.jobs[id].state) && t.jobs[id].onComplete.Some? ==> exists k :: IsCallback(t, k, id))
    && (forall id, k, l :: IsCallback(t, k, id) && IsCallback(t, l, id) ==> k == l)
  }

  /** A job that is not terminal has no callback yet. */
  lemma NotYetCalledBack(t: Table, id: JobId, k: JobId)
    requires CallbacksOnce(t) && id in t.jobs && !Terminal(t.jobs[id].state)
    ensures !IsCallback(t, k, id)
  {
  }

  lemma UpdateKeepsCallbacks(t: Table, id: JobId, job: Job)
    requires CallbacksOnce(t) && id in t.jobs && SameIdentity(t.jobs[id], job)
    requires !Terminal(t.jobs[id].state) && !Terminal(job.state)
    ensures CallbacksOnce(t.(jobs := t.jobs[id := job]))
  {
    var s := t.(jobs := t.jobs[id := job]);
    forall k, i ensures IsCallback(s, k, i) == IsCallback(t, k, i) {
    }
    forall i | i in s.jobs && Terminal(s.jobs[i].state) && s.jobs[i].onComplete.Some? ensures exists k :: IsCallback(s, k, i) {
      var k :| IsCallback(t, k, i);
      assert IsCallback(s, k, i);
    }
  }

  lemma InsertKeepsCallbacks(t: Table, job: Job)
    requires CallbacksOnce(t) && t.nextId !in t.jobs && !Terminal(job.state) && !job.args.CompletionArgs?
    ensures CallbacksOnce(Insert(t, job))
  {
    var s := Insert(t, job);
    forall k, i ensures IsCallback(s, k, i) == IsCallback(t, k, i) {
    }
    forall i | i in s.jobs && Terminal(s.jobs[i].state) && s.jobs[i].onComplete.Some? ensures exists k :: IsCallback(s, k, i) {
      var k :| IsCallback(t, k, i);
      assert IsCallback(s, k, i);
    }
  }

  lemma FinishKeepsCallbacks(t: Table, id: JobId, job: Job, result: Completion, now: int)
    requires CallbacksOnce(t) && t.nextId !in t.jobs && id in t.jobs && SameIdentity(t.jobs[id], job)
    requires !Terminal(t.jobs[id].state) && Terminal(job.state)
    requires job.onComplete.Some? ==> CallbackFits(job, CallbackJob(id, job, result, now))
    ensures CallbacksOnce(Finish(t, id, job, result, now))
  {
    var s := Finish(t, id, job, result, now);
    forall k, i ensures IsCallback(s, k, i) <==> IsCallback(t, k, i) || (k == t.nextId && i == id && job.onComplete.Some?) {
    }
    forall k ensures !IsCallback(t, k, id) {
      NotYetCalledBack(t, id, k);
    }
    forall i | i in s.jobs && Terminal(s.jobs[i].state) && s.jobs[i].onComplete.Some? ensures exists k :: IsCallback(s, k, i) {
      if i == id {
        assert IsCallback(s, t.nextId, id);
      } else {
        var k :| IsCallback(t, k, i);
        assert IsCallback(s, k, i);
      }
    }
  }

  lemma ReclaimOneKeepsCallbacks(t: Table, id: JobId, now: int)
    requires CallbacksOnce(t) && t.nextId !in t.jobs && id in t.jobs && t.jobs[id].state.InProgress?
    ensures CallbacksOnce(ReclaimOne(t, id, now))
  {
    var job := t.jobs[id].(attempts := t.jobs[id].attempts + 1, lastError := Some(LEASE_EXPIRED), leaseExpiresAt := None);
    if job.kind.MutationJob? && job.attempts < job.maxFailures {
      UpdateKeepsCallbacks(t, id, job.(state := Pending, nextTs := now));
    } else {
      FinishKeepsCallbacks(t, id, job.(state := Failed, completedTs := Some(now)), FailedWith(LEASE_EXPIRED), now);
    }
  }

  lemma {:induction false} ReclaimKeepsCallbacks(t: Table, batch: seq<JobId>, now: int)
    requires CallbacksOnce(t) && ExpiredBatch(t, batch, now) && forall k :: k in t.jobs ==> k < t.nextId
    ensures CallbacksOnce(Reclaim(t, batch, now))
    decreases |batch|
  {
    if batch != [] {
      var n := |batch| - 1;
      var front, id := batch[..n], batch[n];
      assert id !in front;
      ReclaimKeepsCallbacks(t, front, now);
      ReclaimMoves(t, front, now, id);
      ReclaimOneKeepsCallbacks(Reclaim(t, front, now), id, now);
    }
  }

  /** The callbacks after a cancel: those before it, and the new rows. */
  lemma CancelCallbacks(t: Table, s: Table, now: int, which: set<JobId>, k: JobId, i: JobId)
    requires CanceledExactly(t, s, now, which)
    ensures IsCallback(s, k, i) <==> IsCallback(t, k, i) || (i in which && CallbackOf(t, s, now, k, i))
  {
  }

  lemma CancelHasCallback(t: Table, s: Table, now: int, which: set<JobId>, i: JobId)
    requires CallbacksOnce(t) && CanceledExactly(t, s, now, which) && which <= t.jobs.Keys
    requires i in t.jobs && Terminal(s.jobs[i].state) && s.jobs[i].onComplete.Some?
    ensures exists k :: IsCallback(s, k, i)
  {
    if i in which {
      var k :| CallbackOf(t, s, now, k, i);
      CancelCallbacks(t, s, now, which, k, i);
    } else {
      var k :| IsCallback(t, k, i);
      CancelCallbacks(t, s, now, which, k, i);
    }
  }

  lemma CancelKeepsCallbacks(t: Table, s: Table, now: int, which: set<JobId>)
    requires CallbacksOnce(t) && CanceledExactly(t, s, now, which)
    requires forall k :: k in which ==> k in t.jobs && t.jobs[k].state.Pending?
    ensures CallbacksOnce(s)
  {
    forall i | i in s.jobs && Terminal(s.jobs[i].state) && s.jobs[i].onComplete.Some? ensures exists k :: IsCallback(s, k, i) {
      CancelMoves(t, s, now, which, i);
      CancelHasCallback(t, s, now, which, i);
    }
    forall k | k in s.jobs && s.jobs[k].args.CompletionArgs?
      ensures s.jobs[k].args.jobId in s.jobs && CallbackFits(s.jobs[s.jobs[k].args.jobId], s.jobs[k])
    {
      CancelCallbacks(t, s, now, which, k, s.jobs[k].args.jobId);
    }
    forall i, k, l | IsCallback(s, k, i) && IsCallback(s, l, i) ensures k == l {
      CancelCallbacks(t, s, now, which, k, i);
      CancelCallbacks(t, s, now, which, l, i);
      if i in which {
        NotYetCalledBack(t, i, k);
        NotYetCalledBack(t, i, l);
      }
    }
  }

  lemma CompleteKeepsCallbacks(t: Table, id: JobId, result: JobResult, delay: nat, now: int)
    requires CallbacksOnce(t) && t.nextId !in t.jobs
    ensures CallbacksOnce(Complete(t, id, result, delay, now))
  {
    if id in t.jobs && t.jobs[id].state.InProgress? {
      var job := t.jobs[id].(leaseExpiresAt := None);
      if result.Ok? {
        FinishKeepsCallbacks(t, id, job.(state := Succeeded, completedTs := Some(now)), CompletedWith(result.value), now);
      } else {
        var failed := job.(attempts := job.attempts + 1, lastError := Some(result.error));
        if failed.attempts >= failed.maxFailures || !result.retryable {
          FinishKeepsCallbacks(t, id, failed.(state := Failed, completedTs := Some(now)), FailedWith(result.error), now);
        } else {
          UpdateKeepsCallbacks(t, id, failed.(state := Pending, nextTs := now + delay));
        }
      }
    }
  }

  lemma StepKeepsCallbacks(t: Table, l: Label, s: Table)
    requires Allowed(t, l, s) && CallbacksOnce(t) && forall k :: k in t.jobs ==> k < t.nextId
    ensures CallbacksOnce(s)
  {
    match l
    case Submitting(fnPath, kind, json, opts, parent, now) =>
      if s != t {
        InsertKeepsCallbacks(t, NewJob(fnPath, kind, Args(json), opts, parent, now));
      }
    case Claiming(id, now) =>
      if s != t {
        UpdateKeepsCallbacks(t, id, s.jobs[id]);
      }
    case Completing(id, result, delay, now) => CompleteKeepsCallbacks(t, id, result, delay, now);
    case Sweeping(batch, now) => ReclaimKeepsCallbacks(t, batch, now);
    case Canceling(id, now) => CancelKeepsCallbacks(t, s, now, PendingFamily(t, id));
  }

  lemma {:induction false} CallbacksAlwaysOnce(tr: Trace)
    requires Valid(tr)
    ensures CallbacksOnce(Last(tr))
  {
    if tr.Then? {
      EveryClaimAccounted(tr.before);
      CallbacksAlwaysOnce(tr.before);
      StepKeepsCallbacks(Last(tr.before), tr.step, tr.after);
    }
  }

  /**
   The completion callback is enqueued exactly once, in the step that makes the job terminal: a
   terminal job with `onComplete` has one callback row, which fits its outcome; any other job has none.
   */
  lemma CallbackExactlyOnce(tr: Trace, id: JobId)
    requires Valid(tr) && id in Last(tr).jobs
    ensures var t := Last(tr);
            var callbacks := set k | k in t.jobs && IsCallback(t, k, id);
            && |callbacks| == (if Terminal(t.jobs[id].state) && t.jobs[id].onComplete.Some? then 1 else 0)
            && (forall k :: k in callbacks ==> CallbackFits(t.jobs[id], t.jobs[k]))
  {
    CallbacksAlwaysOnce(tr);
    var t := Last(tr);
    var callbacks := set k | k in t.jobs && IsCallback(t, k, id);
    if Terminal(t.jobs[id].state) && t.jobs[id].onComplete.Some? {
      var k :| IsCallback(t, k, id);
      assert callbacks == {k};
    } else {
      assert callbacks == {};
    }
  }
}
