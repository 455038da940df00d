/**
 What the steps of the job table do with what they are given: when a job is due, how often it may be
 claimed, how long a claim is safe from the sweep, and what becomes of what a driver reports.
 */
module SchedulerEffects {
  import opened Prelude
  import opened SchedulerTable
  import opened SchedulerRuns

  // ---------------------------------------------------------------- enqueues and claims

  /** A submitted job is as its caller asked, unless its key is in use. */
  lemma SubmitTakesEffect(tr: Trace)
    requires Valid(tr) && tr.Then? && tr.step.Submitting?
    ensures var t, l := Last(tr.before), tr.step;
            if l.opts.idempotencyKey.Some? && HasKey(t, l.opts.idempotencyKey.value) then tr.after == t
            else
              && t.nextId !in t.jobs && tr.after.jobs.Keys == t.jobs.Keys + {t.nextId}
              && (forall j :: j in t.jobs ==> tr.after.jobs[j] == t.jobs[j])
              && AsSubmitted(tr.after.jobs[t.nextId], l.fnPath, l.kind, Args(l.json), l.opts, l.parent, l.now)
  {
    EveryClaimAccounted(tr.before);
  }

  /** Without a budget of its own an action is claimed once at most, and a mutation four times. */
  lemma DefaultBudget(tr: Trace, later: Trace)
    requires Valid(later) && Continues(tr, later) && tr.Then? && tr.step.Submitting? && tr.step.opts.maxFailures.None?
    requires tr.after != Last(tr.before)
    ensures var id := Last(tr.before).nextId;
            id in Last(later).jobs && Claims(later, id) <= match tr.step.kind case ActionJob => 1 case MutationJob => 4
  {
    ContinuesValid(tr, later);
    SubmitTakesEffect(tr);
    IdentityStays(tr, later, Last(tr.before).nextId);
    ClaimsWithinBudget(later, Last(tr.before).nextId);
  }

  /** A claim is safe from the sweep for thirty seconds. */
  lemma ClaimIsLeased(tr: Trace, id: JobId)
    requires Valid(tr) && tr.Then? && Claimed(Last(tr.before), tr.step, id)
    ensures id in tr.after.jobs && tr.after.jobs[id] == Last(tr.before).jobs[id].(state := InProgress, leaseExpiresAt := Some(tr.step.now + 30000))
    ensures forall now, batch :: ExpiredBatch(tr.after, batch, now) && id in batch ==> now > tr.step.now + 30000
  {
  }

  // ---------------------------------------------------------------- what the callback is told

  /** The job's callback is there, once, and is told the outcome. */
  ghost predicate Told(t: Table, id: JobId, outcome: Completion) {
    && (exists k :: IsCallback(t, k, id))
    && forall k :: IsCallback(t, k, id) ==> TellsOutcome(t, k, id, outcome)
  }

  ghost predicate TellsOutcome(t: Table, k: JobId, id: JobId, outcome: Completion) {
    && id in t.jobs && k in t.jobs && t.jobs[id].onComplete == Some(t.jobs[k].fnPath)
    && t.jobs[k].args == CompletionArgs(id, t.jobs[id].context, outcome)
  }

  /** Who has been told stays told. */
  lemma ToldStays(tr: Trace, later: Trace, id: JobId, k: JobId, outcome: Completion)
    requires Valid(later) && Continues(tr, later)
    requires k in Last(tr).jobs && TellsOutcome(Last(tr), k, id, outcome)
    ensures Told(Last(later), id, outcome)
  {
    IdentityStays(tr, later, id);
    IdentityStays(tr, later, k);
    CallbacksAlwaysOnce(later);
    assert IsCallback(Last(later), k, id);
  }

  // ---------------------------------------------------------------- reports

  /** A success is final, with nothing counted. */
  predicate EndsWell(before: Job, after: Job, now: int) {
    after == before.(state := Succeeded, leaseExpiresAt := None, completedTs := Some(now))
  }

  /** A failure is counted and kept, and the job is due again, or dead. */
  predicate EndsBadly(before: Job, after: Job, error: string, again: Option<int>, now: int) {
    && after.attempts == before.attempts + 1 && after.lastError == Some(error) && after.leaseExpiresAt.None?
    && SameIdentity(before, after)
    && match again
       case Some(due) => after.state.Pending? && after.nextTs == due
       case None => after.state.Failed? && after.completedTs == Some(now)
  }

  /** Whether a report lets the job be tried again. */
  predicate TriesAgain(before: Job, result: JobResult) {
    result.Err? && result.retryable && before.attempts + 1 < before.maxFailures
  }

  /** What a report does to the row. */
  predicate Reports(before: Job, after: Job, result: JobResult, delay: nat, now: int) {
    match result
    case Ok(_) => EndsWell(before, after, now)
    case Err(e, _) => EndsBadly(before, after, e, if TriesAgain(before, result) then Some(now + delay) else None, now)
  }

  /** What the callback is to be told. */
  function Verdict(result: JobResult): Completion {
    match result
    case Ok(v) => CompletedWith(v)
    case Err(e, _) => FailedWith(e)
  }

  /**
   What a driver reports of a claimed job takes effect for good. A value reaches the job's callback as it
   was reported, and so does the error of the last attempt; a failure that may be retried makes the job
   due exactly the backoff later, with the failure counted and its error kept.
   */
  lemma ReportTakesEffect(tr: Trace, later: Trace, id: JobId)
    requires Valid(later) && Continues(tr, later) && tr.Then? && tr.step.Completing? && tr.step.id == id
    requires id in Last(tr.before).jobs && Last(tr.before).jobs[id].state.InProgress?
    ensures id in tr.after.jobs && Reports(Last(tr.before).jobs[id], tr.after.jobs[id], tr.step.result, tr.step.delay, tr.step.now)
    ensures Last(tr.before).jobs[id].onComplete.Some? && !TriesAgain(Last(tr.before).jobs[id], tr.step.result) ==>
              Told(Last(later), id, Verdict(tr.step.result))
  {
    ContinuesValid(tr, later);
    EveryClaimAccounted(tr.before);
    var t, l := Last(tr.before), tr.step;
    if t.jobs[id].onComplete.Some? && !TriesAgain(t.jobs[id], l.result) {
      assert TellsOutcome(tr.after, t.nextId, id, Verdict(l.result));
      ToldStays(tr, later, id, t.nextId, Verdict(l.result));
    }
  }

  lemma CallbackRow(t: Table, s: Table, id: JobId, result: JobResult, delay: nat, now: int, k: JobId)
    requires CallbacksOnce(t) && t.nextId !in t.jobs && id in t.jobs && t.jobs[id].state.InProgress? && t.jobs[id].onComplete.Some?
    requires !TriesAgain(t.jobs[id], result) && s == Complete(t, id, result, delay, now) && IsCallback(s, k, id)
    ensures s.jobs[k].state.Pending? && s.jobs[k].nextTs == now
  {
    NotYetCalledBack(t, id, k);
    assert k != t.nextId ==> k in t.jobs && s.jobs[k].args == t.jobs[k].args;
  }

  /** The callback of a job that has just ended is due at once. */
  lemma CallbackIsDue(tr: Trace, id: JobId, k: JobId)
    requires Valid(tr) && tr.Then? && tr.step.Completing? && tr.step.id == id
    requires id in Last(tr.before).jobs && Last(tr.before).jobs[id].state.InProgress? && Last(tr.before).jobs[id].onComplete.Some?
    requires !TriesAgain(Last(tr.before).jobs[id], tr.step.result) && IsCallback(tr.after, k, id)
    ensures tr.after.jobs[k].state.Pending? && tr.after.jobs[k].nextTs == tr.step.now
  {
    EveryClaimAccounted(tr.before);
    CallbacksAlwaysOnce(tr.before);
    CallbackRow(Last(tr.before), tr.after, id, tr.step.result, tr.step.delay, tr.step.now, k);
  }

  // ---------------------------------------------------------------- the sweep

  lemma OneSwept(t: Table, id: JobId, now: int)
    requires id in t.jobs && t.jobs[id].state.InProgress? && forall j :: j in t.jobs ==> j < t.nextId
    ensures var s := ReclaimOne(t, id, now);
            var before := t.jobs[id];
            && id in s.jobs && EndsBadly(before, s.jobs[id], LEASE_EXPIRED, if Requeues(before) then Some(now) else None, now)
            && (before.onComplete.Some? && !Requeues(before) ==> exists k :: k in s.jobs && TellsOutcome(s, k, id, FailedWith(LEASE_EXPIRED)))
  {
    if t.jobs[id].onComplete.Some? && !Requeues(t.jobs[id]) {
      assert TellsOutcome(ReclaimOne(t, id, now), t.nextId, id, FailedWith(LEASE_EXPIRED));
    }
  }

  /** Whether the sweep gives a job back. */
  predicate Requeues(before: Job) {
    before.kind.MutationJob? && before.attempts + 1 < before.maxFailures
  }

  /** Where the rows are the same, what was told is the same. */
  lemma SweptOthersStay(t: Table, s: Table, id: JobId, k: JobId, outcome: Completion)
    requires TellsOutcome(t, k, id, outcome) && id in s.jobs && k in s.jobs
    requires SameIdentity(t.jobs[id], s.jobs[id]) && SameIdentity(t.jobs[k], s.jobs[k])
    ensures TellsOutcome(s, k, id, outcome)
  {
  }

  /** The job has been swept. */
  ghost predicate Swept(before: Job, s: Table, id: JobId, now: int) {
    && id in s.jobs && EndsBadly(before, s.jobs[id], LEASE_EXPIRED, if Requeues(before) then Some(now) else None, now)
    && (before.onComplete.Some? && !Requeues(before) ==> exists k :: k in s.jobs && TellsOutcome(s, k, id, FailedWith(LEASE_EXPIRED)))
  }

  lemma SweptStays(before: Job, t: Table, id: JobId, last: JobId, now: int)
    requires Swept(before, t, id, now) && id != last && last in t.jobs && t.jobs[last].state.InProgress?
    requires forall j :: j in t.jobs ==> j < t.nextId
    ensures Swept(before, ReclaimOne(t, last, now), id, now)
  {
    var s := ReclaimOne(t, last, now);
    ReclaimOneMoves(t, last, now, id);
    if before.onComplete.Some? && !Requeues(before) {
      var k :| k in t.jobs && TellsOutcome(t, k, id, FailedWith(LEASE_EXPIRED));
      ReclaimOneMoves(t, last, now, k);
      SweptOthersStay(t, s, id, k, FailedWith(LEASE_EXPIRED));
    }
  }

  lemma {:induction false} SweepOne(t: Table, batch: seq<JobId>, now: int, id: JobId)
    requires ExpiredBatch(t, batch, now) && id in batch && forall j :: j in t.jobs ==> j < t.nextId
    ensures Swept(t.jobs[id], Reclaim(t, batch, now), id, now)
    decreases |batch|
  {
    var n := |batch| - 1;
    var front, last := batch[..n], batch[n];
    assert last !in front && batch == front + [last];
    ReclaimMoves(t, front, now, last);
    if id == last {
      OneSwept(Reclaim(t, front, now), id, now);
    } else {
      SweepOne(t, front, now, id);
      SweptStays(t.jobs[id], Reclaim(t, front, now), id, last, now);
    }
  }

  /**
   A job that the sweep took has its attempt counted with the lease as its error: a mutation with budget left is
   due at once, and of any other job the callback is told.
   */
  lemma SweepTakesEffect(tr: Trace, later: Trace, id: JobId)
    requires Valid(later) && Continues(tr, later) && tr.Then? && tr.step.Sweeping? && id in tr.step.batch
    ensures id in Last(tr.before).jobs && id in tr.after.jobs
    ensures var before := Last(tr.before).jobs[id];
            && EndsBadly(before, tr.after.jobs[id], LEASE_EXPIRED, if Requeues(before) then Some(tr.step.now) else None, tr.step.now)
            && (before.onComplete.Some? && !Requeues(before) ==> Told(Last(later), id, FailedWith(LEASE_EXPIRED)))
  {
    ContinuesValid(tr, later);
    EveryClaimAccounted(tr.before);
    SweepOne(Last(tr.before), tr.step.batch, tr.step.now, id);
    var before := Last(tr.before).jobs[id];
    if before.onComplete.Some? && !Requeues(before) {
      var k :| k in tr.after.jobs && TellsOutcome(tr.after, k, id, FailedWith(LEASE_EXPIRED));
      ToldStays(tr, later, id, k, FailedWith(LEASE_EXPIRED));
    }
  }
}
