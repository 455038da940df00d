/**
 Whole runs of the recurring schedules: boots with edited registries, cadence ticks (stale and
 repeated ones too), and any activity on the job table, crashes included. A crash is a claim that
 no completion follows.
 */
module CronRuns {
  import opened Prelude
  import opened SchedulerTable
  import opened CronCatchUp
  import opened CronKeys
  import opened CronCadence
  import SchedulerRuns

  datatype Label =
    | Boot(desired: seq<Entry>, now: int)
    | RunTick(id: JobId, kind: JobKind, now: int)
    | Activity(step: SchedulerRuns.Label)

  datatype Trace = Empty | Then(before: Trace, step: Label, after: Store)

  function Last(tr: Trace): Store {
    if tr.Empty? then Store(map[], Table(map[], 0)) else tr.after
  }

  /** The cadence jobs whose tick has committed at least once. */
  function Ran(tr: Trace): set<JobId> {
    match tr
    case Empty => {}
    case Then(before, RunTick(id, _, _), _) => Ran(before) + {id}
    case Then(before, _, _) => Ran(before)
  }

  predicate DistinctNames(desired: seq<Entry>) {
    forall i, j :: 0 <= i < j < |desired| ==> desired[i].name != desired[j].name
  }

  ghost predicate Registry(cals: Calendars, desired: seq<Entry>) {
    DistinctNames(desired) && forall i :: 0 <= i < |desired| ==> RowOk(cals, desired[i])
  }

  ghost predicate BootStep(cals: Calendars, s: Store, desired: seq<Entry>, now: int, s': Store) {
    exists d :: DroppedExactly(s, d, s.crons.Keys - NamesOf(desired), now) && s' == ReconcileAll(cals, d, desired, now)
  }

  predicate IsCadence(t: Table, id: JobId) {
    id in t.jobs && t.jobs[id].args.CadenceArgs?
  }

  /** The clock may step back from one boot or tick to the next. A job reports success only after it ran. */
  ghost predicate Allowed(cals: Calendars, tr: Trace, l: Label, s': Store) {
    var s := Last(tr);
    match l
    case Boot(desired, now) => Registry(cals, desired) && BootStep(cals, s, desired, now, s')
    case RunTick(id, kind, now) =>
      && IsCadence(s.table, id) && RowsOk(cals, s)
      && s' == CronTick(cals, s, s.table.jobs[id].args.cronName, Some(s.table.jobs[id].args.cadenceId), kind, now)
    case Activity(step) =>
      && s'.crons == s.crons && SchedulerRuns.Allowed(s.table, step, s'.table)
      && (step.Completing? && step.result.Ok? && IsCadence(s.table, step.id) ==> step.id in Ran(tr))
  }

  ghost predicate Valid(cals: Calendars, tr: Trace) {
    tr.Then? ==> Valid(cals, tr.before) && Allowed(cals, tr.before, tr.step, tr.after)
  }

  // ---------------------------------------------------------------- what every step keeps of the job table

  ghost predicate Below(t: Table) {
    forall j :: j in t.jobs ==> j < t.nextId
  }

  /**
   `s` is `t` some writes later: the same jobs and perhaps new ones, and no job newly succeeded but those in
   `done`.
   */
  ghost predicate Grown(t: Table, s: Table, done: set<JobId>) {
    && t.nextId <= s.nextId && Below(s)
    && (forall j :: j in t.jobs ==> j in s.jobs && GoesOn(t.jobs[j], s.jobs[j], j in done))
    && (forall j :: j in s.jobs && j !in t.jobs ==> t.nextId <= j && Fresh(s.jobs[j], j))
  }

  /** Only a counted failure, reported or found by the sweep, moves the time a job is due. */
  predicate GoesOn(before: Job, after: Job, done: bool) {
    && SchedulerRuns.SameIdentity(before, after) && (after.state.Succeeded? && !before.state.Succeeded? ==> done)
    && before.attempts <= after.attempts && (after.attempts == before.attempts ==> after.nextTs == before.nextTs)
  }

  predicate Fresh(job: Job, id: JobId) {
    !job.state.Succeeded? && (job.args.CadenceArgs? ==> job.args.cadenceId == id)
  }

  predicate Keyed(t: Table, key: string, j: JobId) {
    j in t.jobs && t.jobs[j].idempotencyKey == Some(key)
  }

  ghost predicate SameKeys(t: Table, s: Table) {
    forall key, j :: Keyed(t, key, j) <==> Keyed(s, key, j)
  }

  lemma GrownTrans(t: Table, s: Table, u: Table)
    requires Grown(t, s, {}) && Grown(s, u, {})
    ensures Grown(t, u, {})
  {
    forall j | j in u.jobs && j !in t.jobs ensures t.nextId <= j {
      assert j in s.jobs || s.nextId <= j;
    }
  }

  lemma CancelGrows(t: Table, id: Option<JobId>, now: int)
    requires Below(t)
    ensures Grown(t, CancelIfPending(t, id, now), {}) && SameKeys(t, CancelIfPending(t, id, now))
  {
  }

  lemma ReclaimOneGrows(t: Table, id: JobId, now: int)
    requires Below(t) && id in t.jobs
    ensures Grown(t, ReclaimOne(t, id, now), {}) && SameKeys(t, ReclaimOne(t, id, now))
  {
  }

  lemma {:induction false} ReclaimGrows(t: Table, batch: seq<JobId>, now: int)
    requires Below(t) && forall a :: 0 <= a < |batch| ==> batch[a] in t.jobs
    ensures Grown(t, Reclaim(t, batch, now), {}) && SameKeys(t, Reclaim(t, batch, now))
    decreases |batch|
  {
    if batch != [] {
      var n := |batch| - 1;
      ReclaimGrows(t, batch[..n], now);
      var s := Reclaim(t, batch[..n], now);
      ReclaimOneGrows(s, batch[n], now);
      GrownTrans(t, s, ReclaimOne(s, batch[n], now));
    }
  }

  function DoneBy(l: SchedulerRuns.Label): set<JobId> {
    if l.Completing? && l.result.Ok? then {l.id} else {}
  }

  lemma FinishGrows(t: Table, id: JobId, job: Job, result: Completion, now: int, done: set<JobId>)
    requires Below(t) && id in t.jobs && GoesOn(t.jobs[id], job, id in done)
    ensures Grown(t, Finish(t, id, job, result, now), done) && SameKeys(t, Finish(t, id, job, result, now))
  {
  }

  lemma CompleteGrows(t: Table, id: JobId, result: JobResult, delay: nat, now: int)
    requires Below(t)
    ensures var s := Complete(t, id, result, delay, now);
            Grown(t, s, if result.Ok? then {id} else {}) && SameKeys(t, s)
  {
    if id in t.jobs && t.jobs[id].state.InProgress? {
      var job := t.jobs[id].(leaseExpiresAt := None);
      if result.Ok? {
        FinishGrows(t, id, job.(state := Succeeded, completedTs := Some(now)), CompletedWith(result.value), now, {id});
      } else {
        var failed := job.(attempts := job.attempts + 1, lastError := Some(result.error));
        FinishGrows(t, id, failed.(state := Failed, completedTs := Some(now)), FailedWith(result.error), now, {});
      }
    }
  }

  lemma ActivityGrows(t: Table, l: SchedulerRuns.Label, s: Table)
    requires Below(t) && SchedulerRuns.Allowed(t, l, s)
    ensures Grown(t, s, DoneBy(l))
    ensures forall key, j :: Keyed(s, key, j) ==> Keyed(t, key, j) || (l.Submitting? && l.opts.idempotencyKey == Some(key) && !HasKey(t, key) && j == t.nextId)
  {
    match l
    case Submitting(fnPath, kind, json, opts, parent, now) =>
    case Claiming(id, now) =>
    case Completing(id, result, delay, now) => CompleteGrows(t, id, result, delay, now);
    case Sweeping(batch, now) => ReclaimGrows(t, batch, now);
    case Canceling(id, now) => CascadeGrows(t, s, now, PendingFamily(t, id));
  }

  lemma CascadeGrows(t: Table, s: Table, now: int, which: set<JobId>)
    requires CanceledExactly(t, s, now, which)
    ensures Grown(t, s, {}) && SameKeys(t, s)
  {
    forall k | k in s.jobs && k !in t.jobs ensures CallbackOf(t, s, now, k, s.jobs[k].args.jobId) {
    }
  }

  lemma ActivityKeepsUnique(t: Table, l: SchedulerRuns.Label, s: Table)
    requires Below(t) && SchedulerRuns.Allowed(t, l, s) && KeysUnique(t)
    ensures KeysUnique(s)
  {
    ActivityGrows(t, l, s);
    forall key, i, j | Keyed(s, key, i) && Keyed(s, key, j) ensures i == j {
      assert Keyed(t, key, i) || i == t.nextId;
      assert Keyed(t, key, j) || j == t.nextId;
    }
  }

  ghost predicate KeysUnique(t: Table) {
    forall key, i, j :: Keyed(t, key, i) && Keyed(t, key, j) ==> i == j
  }

  // ---------------------------------------------------------------- the rows and the jobs they name

  /** The cron's row names a job that is its cadence job, and has an anchor. */
  ghost predicate Pointed(s: Store, name: string)
    requires name in s.crons
  {
    var id := s.crons[name].cadenceJobId;
    && s.crons[name].lastScheduledTs.Some?
    && id.Some? && id.value in s.table.jobs && s.table.jobs[id.value].args == CadenceArgs(name, id.value)
  }

  ghost predicate StoreOk(cals: Calendars, s: Store) {
    && RowsOk(cals, s) && Below(s.table)
    && (forall name :: name in s.crons ==> Pointed(s, name))
    && (forall j :: IsCadence(s.table, j) ==> s.table.jobs[j].args.cadenceId == j)
  }

  lemma GrownKeepsOk(cals: Calendars, s: Store, t: Table, done: set<JobId>)
    requires StoreOk(cals, s) && Grown(s.table, t, done)
    ensures StoreOk(cals, Store(s.crons, t))
  {
    forall j | IsCadence(t, j) ensures t.jobs[j].args.cadenceId == j {
      if j in s.table.jobs {
        assert IsCadence(s.table, j);
      }
    }
    forall name | name in s.crons ensures Pointed(Store(s.crons, t), name) {
      assert Pointed(s, name);
    }
  }

  /** A row whose schedule is the registered one and whose cadence job is live. */
  predicate Settled(s: Store, e: Entry) {
    e.name in s.crons && !SpecChanged(s.crons[e.name], e) && Live(s.table, s.crons[e.name].cadenceJobId)
  }

  /** A row of `r` is anchored where it was in `s`, or at `now`; its cadence job is the one it had, or new. */
  predicate RowAfter(s: Store, r: Store, name: string, now: int)
    requires name in r.crons
  {
    var row := r.crons[name];
    && (row.lastScheduledTs == Some(now) || (name in s.crons && row.lastScheduledTs == s.crons[name].lastScheduledTs))
    && ((row.cadenceJobId.Some? && s.table.nextId <= row.cadenceJobId.value)
        || (name in s.crons && row.cadenceJobId == s.crons[name].cadenceJobId))
  }

  lemma EnqueueCadenceGrows(t: Table, name: string, runAt: int, now: int)
    requires Below(t)
    ensures var s := EnqueueCadence(t, name, runAt, now);
            && Grown(t, s, {}) && SameKeys(t, s) && t.nextId !in t.jobs && Live(s, Some(t.nextId))
            && s.jobs[t.nextId].args == CadenceArgs(name, t.nextId)
            && forall j :: j in t.jobs ==> s.jobs[j] == t.jobs[j]
  {
  }

  /** Every cron but `name` has the same row, and its cadence job is as live as before. */
  ghost predicate OthersKept(s: Store, r: Store, name: string) {
    forall n :: n in s.crons && n != name ==>
      n in r.crons && r.crons[n] == s.crons[n] && (Live(s.table, s.crons[n].cadenceJobId) ==> Live(r.table, s.crons[n].cadenceJobId))
  }

  /** A cron gets a new cadence job. */
  lemma Repoint(cals: Calendars, s: Store, name: string, row: CronRow, runAt: int, now: int)
    requires StoreOk(cals, s) && row.entry.name == name && RowOk(cals, row.entry) && row.lastScheduledTs.Some?
    ensures var r := Store(s.crons[name := row.(cadenceJobId := Some(s.table.nextId))], EnqueueCadence(s.table, name, runAt, now));
            && Grown(s.table, r.table, {}) && SameKeys(s.table, r.table) && StoreOk(cals, r)
            && Live(r.table, Some(s.table.nextId)) && OthersKept(s, r, name)
  {
    EnqueueCadenceGrows(s.table, name, runAt, now);
    GrownKeepsOk(cals, s, EnqueueCadence(s.table, name, runAt, now), {});
    var r := Store(s.crons[name := row.(cadenceJobId := Some(s.table.nextId))], EnqueueCadence(s.table, name, runAt, now));
    forall n | n in r.crons ensures Pointed(r, n) {
      if n != name {
        assert Pointed(Store(s.crons, r.table), n);
      }
    }
  }

  /** Canceling a cron's cadence job leaves the others' alone. */
  lemma CancelPointed(cals: Calendars, s: Store, name: string, now: int)
    requires StoreOk(cals, s) && name in s.crons
    ensures var r := Store(s.crons, CancelIfPending(s.table, s.crons[name].cadenceJobId, now));
            Grown(s.table, r.table, {}) && SameKeys(s.table, r.table) && StoreOk(cals, r) && OthersKept(s, r, name)
  {
    var t := CancelIfPending(s.table, s.crons[name].cadenceJobId, now);
    CancelGrows(s.table, s.crons[name].cadenceJobId, now);
    GrownKeepsOk(cals, s, t, {});
    assert Pointed(s, name);
    forall n | n in s.crons && n != name && Live(s.table, s.crons[n].cadenceJobId) ensures Live(t, s.crons[n].cadenceJobId) {
      assert Pointed(s, n);
    }
  }

  ghost predicate ReconcileGoal(cals: Calendars, s: Store, r: Store, e: Entry, now: int) {
    && Grown(s.table, r.table, {}) && SameKeys(s.table, r.table) && StoreOk(cals, r)
    && r.crons.Keys == s.crons.Keys + {e.name} && Settled(r, e) && RowAfter(s, r, e.name, now) && OthersKept(s, r, e.name)
  }

  lemma Restart(cals: Calendars, s: Store, e: Entry, now: int)
    requires StoreOk(cals, s) && RowOk(cals, e) && e.name in s.crons && SpecChanged(s.crons[e.name], e)
    ensures ReconcileGoal(cals, s, Reconcile(cals, s, e, now), e, now)
  {
    CancelPointed(cals, s, e.name, now);
    var t := CancelIfPending(s.table, s.crons[e.name].cadenceJobId, now);
    var runAt := ComputeNextRun(SpecOf(cals, e.spec, e.tz), now);
    Repoint(cals, Store(s.crons, t), e.name, CronRow(e, Some(now), None), runAt, now);
    GrownTrans(s.table, t, EnqueueCadence(t, e.name, runAt, now));
  }

  lemma Keep(cals: Calendars, s: Store, e: Entry, now: int)
    requires StoreOk(cals, s) && RowOk(cals, e) && e.name in s.crons && !SpecChanged(s.crons[e.name], e)
    ensures ReconcileGoal(cals, s, Reconcile(cals, s, e, now), e, now)
  {
    var row := s.crons[e.name];
    assert Pointed(s, e.name);
    if Live(s.table, row.cadenceJobId) {
      var r := Reconcile(cals, s, e, now);
      forall n | n in r.crons ensures Pointed(r, n) {
        assert Pointed(s, n);
      }
    } else {
      Repoint(cals, s, e.name, row, ComputeNextRun(SpecOf(cals, e.spec, e.tz), AnchorOf(row, now)), now);
    }
  }

  /** One registered cron is reconciled: it is settled, and no other cron is touched. */
  lemma ReconcileOne(cals: Calendars, s: Store, e: Entry, now: int)
    requires StoreOk(cals, s) && RowOk(cals, e)
    ensures ReconcileGoal(cals, s, Reconcile(cals, s, e, now), e, now)
  {
    if e.name !in s.crons {
      Repoint(cals, s, e.name, CronRow(e, Some(now), None), ComputeNextRun(SpecOf(cals, e.spec, e.tz), now), now);
    } else if SpecChanged(s.crons[e.name], e) {
      Restart(cals, s, e, now);
    } else {
      Keep(cals, s, e, now);
    }
  }

  ghost predicate AllSettled(r: Store, desired: seq<Entry>) {
    forall i :: 0 <= i < |desired| ==> Settled(r, desired[i])
  }

  ghost predicate RowsAfter(s: Store, r: Store, now: int) {
    forall name :: name in r.crons ==> RowAfter(s, r, name, now)
  }

  /** What a whole reconciliation gives. */
  ghost predicate BootGoal(cals: Calendars, s: Store, r: Store, desired: seq<Entry>, now: int) {
    && Grown(s.table, r.table, {}) && SameKeys(s.table, r.table) && StoreOk(cals, r)
    && AllSettled(r, desired) && RowsAfter(s, r, now)
  }

  lemma SameKeysTrans(t: Table, s: Table, u: Table)
    requires SameKeys(t, s) && SameKeys(s, u)
    ensures SameKeys(t, u)
  {
    forall key, j ensures Keyed(t, key, j) <==> Keyed(u, key, j) {
      assert Keyed(t, key, j) <==> Keyed(s, key, j);
    }
  }

  lemma RowsAfterTrans(s: Store, m: Store, r: Store, name: string, now: int)
    requires r.crons.Keys == m.crons.Keys + {name} && OthersKept(m, r, name)
    requires RowsAfter(s, m, now) && RowAfter(m, r, name, now) && s.table.nextId <= m.table.nextId
    ensures RowsAfter(s, r, now)
  {
    forall n | n in r.crons ensures RowAfter(s, r, n, now) {
      if n in m.crons {
        assert RowAfter(s, m, n, now);
      }
    }
  }

  lemma SettledTrans(m: Store, r: Store, front: seq<Entry>, e: Entry)
    requires AllSettled(m, front) && Settled(r, e) && OthersKept(m, r, e.name)
    requires forall i :: 0 <= i < |front| ==> front[i].name != e.name
    ensures AllSettled(r, front + [e])
  {
    forall i | 0 <= i < |front| ensures Settled(r, front[i]) {
      assert Settled(m, front[i]);
    }
  }

  lemma RegistryFront(cals: Calendars, desired: seq<Entry>)
    requires Registry(cals, desired) && desired != []
    ensures var n := |desired| - 1;
            && Registry(cals, desired[..n]) && RowOk(cals, desired[n]) && desired == desired[..n] + [desired[n]]
            && forall i :: 0 <= i < n ==> desired[..n][i].name != desired[n].name
  {
    var n := |desired| - 1;
    assert forall i :: 0 <= i < n ==> desired[..n][i] == desired[i];
  }

  lemma {:induction false} ReconcileMany(cals: Calendars, s: Store, desired: seq<Entry>, now: int)
    requires StoreOk(cals, s) && Registry(cals, desired)
    ensures BootGoal(cals, s, ReconcileAll(cals, s, desired, now), desired, now)
    ensures ReconcileAll(cals, s, desired, now).crons.Keys == s.crons.Keys + NamesOf(desired)
    decreases |desired|
  {
    if desired == [] {
      assert NamesOf(desired) == {};
    } else {
      var n := |desired| - 1;
      var front, e := desired[..n], desired[n];
      RegistryFront(cals, desired);
      ReconcileMany(cals, s, front, now);
      var m := ReconcileAll(cals, s, front, now);
      ReconcileStep(cals, s, m, front, e, now);
      NamesSnoc(desired);
    }
  }

  lemma ReconcileStep(cals: Calendars, s: Store, m: Store, front: seq<Entry>, e: Entry, now: int)
    requires BootGoal(cals, s, m, front, now) && RowOk(cals, e)
    requires forall i :: 0 <= i < |front| ==> front[i].name != e.name
    ensures BootGoal(cals, s, Reconcile(cals, m, e, now), front + [e], now)
    ensures Reconcile(cals, m, e, now).crons.Keys == m.crons.Keys + {e.name}
  {
    ReconcileOne(cals, m, e, now);
    Compose(cals, s, m, Reconcile(cals, m, e, now), front, e, now);
  }

  lemma Compose(cals: Calendars, s: Store, m: Store, r: Store, front: seq<Entry>, e: Entry, now: int)
    requires BootGoal(cals, s, m, front, now) && ReconcileGoal(cals, m, r, e, now)
    requires forall i :: 0 <= i < |front| ==> front[i].name != e.name
    ensures BootGoal(cals, s, r, front + [e], now)
  {
    GrownTrans(s.table, m.table, r.table);
    SameKeysTrans(s.table, m.table, r.table);
    RowsAfterTrans(s, m, r, e.name, now);
    SettledTrans(m, r, front, e);
  }

  lemma NamesSnoc(desired: seq<Entry>)
    requires |desired| > 0
    ensures NamesOf(desired) == NamesOf(desired[..|desired| - 1]) + {desired[|desired| - 1].name}
  {
    var n := |desired| - 1;
    forall name | name in NamesOf(desired) ensures name in NamesOf(desired[..n]) + {desired[n].name} {
      var i :| 0 <= i < |desired| && desired[i].name == name;
      assert i < n ==> desired[..n][i].name == name;
    }
    forall name | name in NamesOf(desired[..n]) ensures name in NamesOf(desired) {
      var i :| 0 <= i < n && desired[..n][i].name == name;
      assert desired[i].name == name;
    }
  }

  lemma DropMany(cals: Calendars, s: Store, d: Store, gone: set<string>, now: int)
    requires StoreOk(cals, s) && DroppedExactly(s, d, gone, now)
    ensures Grown(s.table, d.table, {}) && SameKeys(s.table, d.table) && StoreOk(cals, d)
    ensures forall name :: name in d.crons ==> name in s.crons && d.crons[name] == s.crons[name]
  {
    DropGrows(s, d, gone, now);
    GrownKeepsOk(cals, s, d.table, {});
    DropKeepsRows(cals, s, d);
  }

  lemma DropGrows(s: Store, d: Store, gone: set<string>, now: int)
    requires Below(s.table) && DroppedExactly(s, d, gone, now)
    ensures Grown(s.table, d.table, {}) && SameKeys(s.table, d.table)
    ensures forall name :: name in d.crons ==> name in s.crons && d.crons[name] == s.crons[name]
  {
  }

  lemma DropKeepsRows(cals: Calendars, s: Store, d: Store)
    requires StoreOk(cals, Store(s.crons, d.table))
    requires forall name :: name in d.crons ==> name in s.crons && d.crons[name] == s.crons[name]
    ensures StoreOk(cals, d)
  {
    forall name | name in d.crons ensures Pointed(d, name) {
      assert Pointed(Store(s.crons, d.table), name);
    }
  }

  /** A boot, as a whole. */
  lemma BootKeeps(cals: Calendars, s: Store, desired: seq<Entry>, now: int, r: Store)
    requires StoreOk(cals, s) && Registry(cals, desired) && BootStep(cals, s, desired, now, r)
    ensures BootGoal(cals, s, r, desired, now) && r.crons.Keys == NamesOf(desired)
  {
    var gone := s.crons.Keys - NamesOf(desired);
    var d :| DroppedExactly(s, d, gone, now) && r == ReconcileAll(cals, d, desired, now);
    BootParts(cals, s, d, desired, now, r);
  }

  lemma BootParts(cals: Calendars, s: Store, d: Store, desired: seq<Entry>, now: int, r: Store)
    requires StoreOk(cals, s) && Registry(cals, desired)
    requires DroppedExactly(s, d, s.crons.Keys - NamesOf(desired), now) && r == ReconcileAll(cals, d, desired, now)
    ensures BootGoal(cals, s, r, desired, now) && r.crons.Keys == NamesOf(desired)
  {
    var gone := s.crons.Keys - NamesOf(desired);
    DropMany(cals, s, d, gone, now);
    ReconcileMany(cals, d, desired, now);
    assert d.crons.Keys == s.crons.Keys - gone;
    DropThen(cals, s, d, r, desired, now);
  }

  lemma DropThen(cals: Calendars, s: Store, d: Store, r: Store, desired: seq<Entry>, now: int)
    requires Grown(s.table, d.table, {}) && SameKeys(s.table, d.table)
    requires forall name :: name in d.crons ==> name in s.crons && d.crons[name] == s.crons[name]
    requires BootGoal(cals, d, r, desired, now)
    ensures BootGoal(cals, s, r, desired, now)
  {
    GrownTrans(s.table, d.table, r.table);
    SameKeysTrans(s.table, d.table, r.table);
    forall name | name in r.crons ensures RowAfter(s, r, name, now) {
      assert RowAfter(d, r, name, now);
    }
  }

  // ---------------------------------------------------------------- what a tick fires

  /** An occurrence that a tick fired, with the row it fired from. */
  datatype Fire = Fire(entry: Entry, at: int)

  /** Job `j` is the work job of a fire. */
  predicate Carries(t: Table, f: Fire, j: JobId) {
    Keyed(t, CronKey(f.entry.name, f.at), j) && t.jobs[j].fnPath == f.entry.workFnPath && t.jobs[j].args == Args(f.entry.workArgs)
  }

  ghost predicate Carried(t: Table, f: Fire) {
    exists j :: Carries(t, f, j)
  }

  /** `key` is the key of one of the fires. */
  predicate FireKey(name: string, fires: seq<int>, key: string) {
    fires != [] && (key == CronKey(name, fires[|fires| - 1]) || FireKey(name, fires[..|fires| - 1], key))
  }

  lemma {:induction false} FireKeyMeans(name: string, fires: seq<int>, other: string, at: int)
    requires FireKey(name, fires, CronKey(other, at))
    ensures name == other && at in fires
  {
    var n := |fires| - 1;
    if CronKey(other, at) == CronKey(name, fires[n]) {
      KeyInjective(other, at, name, fires[n]);
    } else {
      FireKeyMeans(name, fires[..n], other, at);
    }
  }

  lemma CarriedOn(t: Table, s: Table, f: Fire, done: set<JobId>)
    requires Carried(t, f) && Grown(t, s, done)
    ensures Carried(s, f)
  {
    var j :| Carries(t, f, j);
    assert Carries(s, f, j);
  }

  /** One work job: it is there afterwards, under the only new key. */
  lemma WorkOnce(t: Table, entry: Entry, kind: JobKind, at: int, now: int)
    requires Below(t) && KeysUnique(t)
    ensures var s := EnqueueWork(t, entry, kind, at, now);
            && Grown(t, s, {}) && KeysUnique(s) && HasKey(s, CronKey(entry.name, at))
            && (forall key, j :: Keyed(s, key, j) ==> Keyed(t, key, j) || key == CronKey(entry.name, at))
  {
    var key := CronKey(entry.name, at);
    var s := EnqueueWork(t, entry, kind, at, now);
    if !HasKey(t, key) {
      assert Keyed(s, key, t.nextId);
      forall k, i, j | Keyed(s, k, i) && Keyed(s, k, j) ensures i == j {
        assert Keyed(t, k, i) || (i == t.nextId && k == key);
        assert Keyed(t, k, j) || (j == t.nextId && k == key);
      }
    }
  }

  /** The work jobs of a tick: no key is used twice, and the new keys are those of the fires. */
  lemma {:induction false} WorksOnce(t: Table, entry: Entry, kind: JobKind, fires: seq<int>, now: int)
    requires Below(t) && KeysUnique(t)
    ensures var s := EnqueueWorks(t, entry, kind, fires, now);
            && Grown(t, s, {}) && KeysUnique(s)
            && (forall key, j :: Keyed(s, key, j) ==> Keyed(t, key, j) || FireKey(entry.name, fires, key))
    decreases |fires|
  {
    if fires != [] {
      var n := |fires| - 1;
      WorksOnce(t, entry, kind, fires[..n], now);
      var m := EnqueueWorks(t, entry, kind, fires[..n], now);
      WorkOnce(m, entry, kind, fires[n], now);
      var s := EnqueueWork(m, entry, kind, fires[n], now);
      GrownTrans(t, m, s);
    }
  }

  predicate KeyFree(t: Table, name: string, at: int) {
    !HasKey(t, CronKey(name, at))
  }

  /** A fire finds its key free, or its own work job under it. */
  ghost predicate Clear(t: Table, f: Fire) {
    KeyFree(t, f.entry.name, f.at) || Carried(t, f)
  }

  /**
   The enqueue of one fire gives it a work job with its target if and only if its key is free, or the job
   that has the key already has that target.
   */
  lemma WorkCarriedIff(t: Table, entry: Entry, kind: JobKind, at: int, now: int)
    requires Below(t)
    ensures Carried(EnqueueWork(t, entry, kind, at, now), Fire(entry, at)) <==> Clear(t, Fire(entry, at))
  {
    if KeyFree(t, entry.name, at) {
      assert Carries(EnqueueWork(t, entry, kind, at, now), Fire(entry, at), t.nextId);
    }
  }

  /** It does not decide for other fires of the row. */
  lemma WorkStaysClear(t: Table, entry: Entry, kind: JobKind, at: int, now: int, x: int)
    requires Below(t)
    ensures Below(EnqueueWork(t, entry, kind, at, now))
    ensures Clear(EnqueueWork(t, entry, kind, at, now), Fire(entry, x)) <==> Clear(t, Fire(entry, x))
  {
    var s, f := EnqueueWork(t, entry, kind, at, now), Fire(entry, x);
    if x == at {
      WorkCarriedIff(t, entry, kind, at, now);
      WorkKeyed(t, entry, kind, at, now, at);
    } else if s != t {
      OtherKeySame(t, entry, kind, at, now, x);
    }
  }

  lemma OtherKeySame(t: Table, entry: Entry, kind: JobKind, at: int, now: int, x: int)
    requires Below(t) && x != at && KeyFree(t, entry.name, at)
    ensures var s := EnqueueWork(t, entry, kind, at, now);
            && KeyFree(s, entry.name, x) == KeyFree(t, entry.name, x)
            && (Carried(s, Fire(entry, x)) <==> Carried(t, Fire(entry, x)))
  {
    var s, f := EnqueueWork(t, entry, kind, at, now), Fire(entry, x);
    if CronKey(entry.name, x) == CronKey(entry.name, at) {
      KeyInjective(entry.name, x, entry.name, at);
    }
    forall j ensures Keyed(s, CronKey(entry.name, x), j) == Keyed(t, CronKey(entry.name, x), j) {
    }
    forall j ensures Carries(s, f, j) == Carries(t, f, j) {
    }
    KeyedIsUsed(s, entry.name, x);
    KeyedIsUsed(t, entry.name, x);
  }

  lemma KeyedIsUsed(t: Table, name: string, at: int)
    ensures !KeyFree(t, name, at) <==> exists j :: Keyed(t, CronKey(name, at), j)
  {
    if !KeyFree(t, name, at) {
      var j :| j in t.jobs && t.jobs[j].idempotencyKey == Some(CronKey(name, at));
      assert Keyed(t, CronKey(name, at), j);
    }
  }

  /** One more work job keeps the keys there are and leaves its own. */
  lemma WorkKeyed(t: Table, entry: Entry, kind: JobKind, fireTs: int, now: int, at: int)
    requires Below(t) && (at == fireTs || !KeyFree(t, entry.name, at))
    ensures Below(EnqueueWork(t, entry, kind, fireTs, now)) && !KeyFree(EnqueueWork(t, entry, kind, fireTs, now), entry.name, at)
  {
    var r := EnqueueWork(t, entry, kind, fireTs, now);
    if !KeyFree(t, entry.name, at) {
      var j :| j in t.jobs && t.jobs[j].idempotencyKey == Some(CronKey(entry.name, at));
      assert j in r.jobs && r.jobs[j] == t.jobs[j];
    } else {
      assert r.jobs[t.nextId].idempotencyKey == Some(CronKey(entry.name, at));
    }
  }

  lemma {:induction false} WorksStayClear(t: Table, entry: Entry, kind: JobKind, fires: seq<int>, now: int, x: int)
    requires Below(t)
    ensures Below(EnqueueWorks(t, entry, kind, fires, now))
    ensures Clear(EnqueueWorks(t, entry, kind, fires, now), Fire(entry, x)) <==> Clear(t, Fire(entry, x))
    decreases |fires|
  {
    if fires != [] {
      var n := |fires| - 1;
      WorksStayClear(t, entry, kind, fires[..n], now, x);
      WorkStaysClear(EnqueueWorks(t, entry, kind, fires[..n], now), entry, kind, fires[n], now, x);
    }
  }

  /** Enqueueing the work jobs of a tick leaves each of their keys in the table, whether it was there or not. */
  lemma {:induction false} WorksKeyed(t: Table, entry: Entry, kind: JobKind, fires: seq<int>, now: int, i: nat)
    requires Below(t) && i < |fires|
    ensures !KeyFree(EnqueueWorks(t, entry, kind, fires, now), entry.name, fires[i])
    decreases |fires|
  {
    var n := |fires| - 1;
    var front := fires[..n];
    assert Below(EnqueueWorks(t, entry, kind, front, now)) by {
      WorksStayClear(t, entry, kind, front, now, fires[i]);
    }
    if i < n {
      WorksKeyed(t, entry, kind, front, now, i);
    }
    WorkKeyed(EnqueueWorks(t, entry, kind, front, now), entry, kind, fires[n], now, fires[i]);
  }

  /** The same for all the work jobs of a tick: each fire by what was under its key before the tick. */
  lemma WorksCarriedIff(t: Table, entry: Entry, kind: JobKind, fires: seq<int>, now: int, i: nat)
    requires Below(t) && i < |fires|
    ensures Carried(EnqueueWorks(t, entry, kind, fires, now), Fire(entry, fires[i])) <==> Clear(t, Fire(entry, fires[i]))
  {
    WorksKeyed(t, entry, kind, fires, now, i);
    WorksStayClear(t, entry, kind, fires, now, fires[i]);
  }

  /** What a tick of cron `name` fires. */
  ghost function FiredBy(cals: Calendars, s: Store, name: string, now: int): seq<int>
    requires RowsOk(cals, s) && name in s.crons
  {
    var row := s.crons[name];
    Chosen(row.entry.catchUp, Missed(SpecOf(cals, row.entry.spec, row.entry.tz), AnchorOf(row, now), now))
  }

  /** A tick that counts: one new cadence job, one new anchor, and work jobs for what it fires. */
  lemma TickKeeps(cals: Calendars, s: Store, name: string, id: JobId, kind: JobKind, now: int)
    requires StoreOk(cals, s) && KeysUnique(s.table) && TickCounts(s, name, Some(id))
    ensures var r := CronTick(cals, s, name, Some(id), kind, now);
            var works := EnqueueWorks(s.table, s.crons[name].entry, kind, FiredBy(cals, s, name, now), now);
            && Grown(s.table, works, {}) && KeysUnique(works) && Grown(works, r.table, {}) && SameKeys(works, r.table)
            && StoreOk(cals, r) && r.crons.Keys == s.crons.Keys
            && r.crons[name].cadenceJobId.value == works.nextId >= s.table.nextId
            && (forall n :: n in s.crons && n != name ==> r.crons[n] == s.crons[n])
  {
    var row := s.crons[name];
    var works := EnqueueWorks(s.table, row.entry, kind, FiredBy(cals, s, name, now), now);
    WorksOnce(s.table, row.entry, kind, FiredBy(cals, s, name, now), now);
    GrownKeepsOk(cals, s, works, {});
    var spec := SpecOf(cals, row.entry.spec, row.entry.tz);
    var newLast := LastOf(AnchorOf(row, now), Missed(spec, AnchorOf(row, now), now));
    Repoint(cals, Store(s.crons, works), name, row.(lastScheduledTs := Some(newLast)), ComputeNextRun(spec, newLast), now);
  }

  /** The anchor moves forward, past everything fired, and not past the clock. */
  lemma TickAnchors(cals: Calendars, s: Store, name: string, id: JobId, kind: JobKind, now: int)
    requires RowsOk(cals, s) && TickCounts(s, name, Some(id)) && s.crons[name].lastScheduledTs.Some?
    ensures var r := CronTick(cals, s, name, Some(id), kind, now);
            var from, to := s.crons[name].lastScheduledTs.value, r.crons[name].lastScheduledTs.value;
            var fired := FiredBy(cals, s, name, now);
            && from <= to && (from <= now ==> to <= now)
            && Increasing(fired) && (forall i :: 0 <= i < |fired| ==> from < fired[i] <= to)
  {
    var row := s.crons[name];
    var spec := SpecOf(cals, row.entry.spec, row.entry.tz);
    TickIsExact(spec, row.lastScheduledTs.value, now, 0);
    TickFires(spec, row.entry.catchUp, row.lastScheduledTs.value, row.lastScheduledTs.value, now);
    var fired := FiredBy(cals, s, name, now);
    forall i | 0 <= i < |fired| ensures row.lastScheduledTs.value < fired[i] <= LastOf(row.lastScheduledTs.value, Missed(spec, row.lastScheduledTs.value, now)) {
      assert fired[i] in fired;
    }
  }

  // ---------------------------------------------------------------- one chain per cron

  /** The cadence job a cron's row names. */
  predicate Canonical(s: Store, name: string, id: JobId) {
    name in s.crons && s.crons[name].cadenceJobId == Some(id)
  }

  ghost predicate ChainsOk(tr: Trace) {
    var s := Last(tr);
    && (forall id :: id in Ran(tr) ==> id < s.table.nextId)
    && (forall name, id :: Canonical(s, name, id) ==> id !in Ran(tr))
    && (forall id :: IsCadence(s.table, id) && s.table.jobs[id].state.Succeeded? ==> id in Ran(tr))
  }

  lemma OkStep(cals: Calendars, tr: Trace, l: Label, r: Store)
    requires Allowed(cals, tr, l, r) && StoreOk(cals, Last(tr)) && KeysUnique(Last(tr).table)
    ensures StoreOk(cals, r) && KeysUnique(r.table)
  {
    var s := Last(tr);
    match l
    case Boot(desired, now) =>
      BootKeeps(cals, s, desired, now, r);
      forall key, i, j | Keyed(r.table, key, i) && Keyed(r.table, key, j) ensures i == j {
        assert Keyed(s.table, key, i) && Keyed(s.table, key, j);
      }
    case RunTick(id, kind, now) =>
      var name := s.table.jobs[id].args.cronName;
      if TickCounts(s, name, Some(id)) {
        TickKeeps(cals, s, name, id, kind, now);
        var works := EnqueueWorks(s.table, s.crons[name].entry, kind, FiredBy(cals, s, name, now), now);
        forall key, i, j | Keyed(r.table, key, i) && Keyed(r.table, key, j) ensures i == j {
          assert Keyed(works, key, i) && Keyed(works, key, j);
        }
      }
    case Activity(step) =>
      ActivityGrows(s.table, step, r.table);
      ActivityKeepsUnique(s.table, step, r.table);
      GrownKeepsOk(cals, s, r.table, DoneBy(step));
  }

  /** In every run the rows name cadence jobs of their own, and no idempotency key is carried by two jobs. */
  lemma {:induction false} RunOk(cals: Calendars, tr: Trace)
    requires Valid(cals, tr)
    ensures StoreOk(cals, Last(tr)) && KeysUnique(Last(tr).table)
  {
    if tr.Then? {
      RunOk(cals, tr.before);
      OkStep(cals, tr.before, tr.step, tr.after);
    }
  }

  /** The job a cron's row names is in the table, is its cadence job and no other cron's. */
  lemma CanonicalIsOwn(cals: Calendars, s: Store, name: string, id: JobId)
    requires StoreOk(cals, s) && Canonical(s, name, id)
    ensures IsCadence(s.table, id) && s.table.jobs[id].args == CadenceArgs(name, id) && id < s.table.nextId
  {
    assert Pointed(s, name);
  }

  lemma SucceededBefore(t: Table, r: Table, done: set<JobId>, id: JobId)
    requires Grown(t, r, done) && IsCadence(r, id) && r.jobs[id].state.Succeeded?
    ensures IsCadence(t, id) && (t.jobs[id].state.Succeeded? || id in done)
  {
  }

  lemma ChainsBoot(cals: Calendars, tr: Trace, desired: seq<Entry>, now: int, r: Store)
    requires StoreOk(cals, Last(tr)) && ChainsOk(tr) && BootGoal(cals, Last(tr), r, desired, now)
    ensures ChainsOk(Then(tr, Boot(desired, now), r))
  {
    var s := Last(tr);
    forall name, id | Canonical(r, name, id) ensures id !in Ran(tr) {
      assert RowAfter(s, r, name, now);
      assert Canonical(s, name, id) || s.table.nextId <= id;
    }
    forall id | IsCadence(r.table, id) && r.table.jobs[id].state.Succeeded? ensures id in Ran(tr) {
      SucceededBefore(s.table, r.table, {}, id);
    }
  }

  /** A tick without effect. */
  lemma ChainsStaleTick(cals: Calendars, tr: Trace, id: JobId, kind: JobKind, now: int)
    requires StoreOk(cals, Last(tr)) && ChainsOk(tr) && IsCadence(Last(tr).table, id)
    requires !TickCounts(Last(tr), Last(tr).table.jobs[id].args.cronName, Some(id))
    ensures ChainsOk(Then(tr, RunTick(id, kind, now), Last(tr)))
  {
    var s := Last(tr);
    forall n, i | Canonical(s, n, i) ensures i !in Ran(tr) + {id} {
      CanonicalIsOwn(cals, s, n, i);
    }
  }

  lemma ChainsTick(cals: Calendars, tr: Trace, id: JobId, kind: JobKind, now: int)
    requires StoreOk(cals, Last(tr)) && KeysUnique(Last(tr).table) && ChainsOk(tr) && IsCadence(Last(tr).table, id)
    requires TickCounts(Last(tr), Last(tr).table.jobs[id].args.cronName, Some(id))
    ensures ChainsOk(Then(tr, RunTick(id, kind, now), CronTick(cals, Last(tr), Last(tr).table.jobs[id].args.cronName, Some(id), kind, now)))
  {
    var s := Last(tr);
    var name := s.table.jobs[id].args.cronName;
    var r := CronTick(cals, s, name, Some(id), kind, now);
    TickGrows(cals, s, name, id, kind, now);
    forall n, i | Canonical(r, n, i) ensures i !in Ran(tr) + {id} {
      if n != name {
        assert Canonical(s, n, i);
        CanonicalIsOwn(cals, s, n, i);
      }
    }
    forall i | IsCadence(r.table, i) && r.table.jobs[i].state.Succeeded? ensures i in Ran(tr) {
      SucceededBefore(s.table, r.table, {}, i);
    }
  }

  /** What `TickKeeps` says, without the work jobs. */
  lemma TickGrows(cals: Calendars, s: Store, name: string, id: JobId, kind: JobKind, now: int)
    requires StoreOk(cals, s) && KeysUnique(s.table) && TickCounts(s, name, Some(id))
    ensures var r := CronTick(cals, s, name, Some(id), kind, now);
            && Grown(s.table, r.table, {}) && r.crons.Keys == s.crons.Keys
            && r.crons[name].cadenceJobId.Some? && r.crons[name].cadenceJobId.value >= s.table.nextId
            && (forall n :: n in s.crons && n != name ==> r.crons[n] == s.crons[n])
  {
    TickKeeps(cals, s, name, id, kind, now);
    GrownTrans(s.table, EnqueueWorks(s.table, s.crons[name].entry, kind, FiredBy(cals, s, name, now), now),
               CronTick(cals, s, name, Some(id), kind, now).table);
  }

  lemma ChainsActivity(cals: Calendars, tr: Trace, step: SchedulerRuns.Label, r: Store)
    requires Allowed(cals, tr, Activity(step), r) && StoreOk(cals, Last(tr)) && ChainsOk(tr)
    ensures ChainsOk(Then(tr, Activity(step), r))
  {
    var s := Last(tr);
    ActivityGrows(s.table, step, r.table);
    forall n, i | Canonical(r, n, i) ensures i !in Ran(tr) {
      assert Canonical(s, n, i);
    }
    forall i | IsCadence(r.table, i) && r.table.jobs[i].state.Succeeded? ensures i in Ran(tr) {
      SucceededBefore(s.table, r.table, DoneBy(step), i);
    }
  }

  lemma {:induction false} RunChains(cals: Calendars, tr: Trace)
    requires Valid(cals, tr)
    ensures ChainsOk(tr)
  {
    if tr.Then? {
      RunChains(cals, tr.before);
      RunOk(cals, tr.before);
      match tr.step
      case Boot(desired, now) =>
        BootKeeps(cals, Last(tr.before), desired, now, tr.after);
        ChainsBoot(cals, tr.before, desired, now, tr.after);
      case RunTick(id, kind, now) =>
        if TickCounts(Last(tr.before), Last(tr.before).table.jobs[id].args.cronName, Some(id)) {
          ChainsTick(cals, tr.before, id, kind, now);
        } else {
          ChainsStaleTick(cals, tr.before, id, kind, now);
        }
      case Activity(step) => ChainsActivity(cals, tr.before, step, tr.after);
    }
  }

  /**
   One chain. Of all the cadence jobs a run has made for a cron, through crashes, reclaimed leases,
   edits and reboots, only the one the row names has an effect when it runs; the tick of any other
   leaves every row as it was. No two crons share one.
   */
  lemma OnlyCanonicalTicks(cals: Calendars, tr: Trace, id: JobId, kind: JobKind, now: int)
    requires Valid(cals, tr) && IsCadence(Last(tr).table, id)
    ensures RowsOk(cals, Last(tr))
    ensures var s := Last(tr);
            var args := s.table.jobs[id].args;
            && (CronTick(cals, s, args.cronName, Some(args.cadenceId), kind, now) != s <==> Canonical(s, args.cronName, id))
            && (forall name :: Canonical(s, name, id) ==> name == args.cronName)
  {
    RunOk(cals, tr);
    var s := Last(tr);
    var name := s.table.jobs[id].args.cronName;
    if Canonical(s, name, id) {
      TickKeeps(cals, s, name, id, kind, now);
    }
    if TickCounts(s, name, Some(id)) {
      assert Pointed(s, name);
    }
    forall n | Canonical(s, n, id) ensures n == name {
      CanonicalIsOwn(cals, s, n, id);
    }
  }

  /** How many ticks of job `id` had an effect. */
  function Effects(tr: Trace, id: JobId): nat {
    if tr.Empty? then 0
    else Effects(tr.before, id) + if tr.step.RunTick? && tr.step.id == id && tr.after != Last(tr.before) then 1 else 0
  }

  lemma {:induction false} EffectsBelong(cals: Calendars, tr: Trace, id: JobId)
    requires Valid(cals, tr)
    ensures Effects(tr, id) <= 1 && (Effects(tr, id) == 1 ==> id in Ran(tr))
  {
    if tr.Then? {
      EffectsBelong(cals, tr.before, id);
      RunChains(cals, tr.before);
      if tr.step.RunTick? && tr.step.id == id {
        OnlyCanonicalTicks(cals, tr.before, id, tr.step.kind, tr.step.now);
      }
    }
  }

  /** A cadence job fires and reschedules at most once, however often it is retried or reclaimed. */
  lemma EachTickOnce(cals: Calendars, tr: Trace, id: JobId)
    requires Valid(cals, tr)
    ensures Effects(tr, id) <= 1
  {
    EffectsBelong(cals, tr, id);
  }

  /** Between boots a chain can only stop because its cadence job failed for good or was canceled. */
  lemma ChainStopsOnlyByFailure(cals: Calendars, tr: Trace, name: string, id: JobId)
    requires Valid(cals, tr) && Canonical(Last(tr), name, id)
    ensures id in Last(tr).table.jobs && !Last(tr).table.jobs[id].state.Succeeded?
    ensures Live(Last(tr).table, Some(id)) || Last(tr).table.jobs[id].state.Failed? || Last(tr).table.jobs[id].state.Canceled?
  {
    RunOk(cals, tr);
    RunChains(cals, tr);
    CanonicalIsOwn(cals, Last(tr), name, id);
  }

  /**
   After a boot the crons are the registered ones; each has its registered schedule and target, and
   exactly one cadence job whose tick would count, which is live.
   */
  lemma AfterBoot(cals: Calendars, tr: Trace, i: nat)
    requires Valid(cals, tr) && tr.Then? && tr.step.Boot? && i < |tr.step.desired|
    ensures var s, e := tr.after, tr.step.desired[i];
            && s.crons.Keys == NamesOf(tr.step.desired)
            && Settled(s, e)
            && (forall id :: TickCounts(s, e.name, Some(id)) <==> Canonical(s, e.name, id))
  {
    RunOk(cals, tr.before);
    BootKeeps(cals, Last(tr.before), tr.step.desired, tr.step.now, tr.after);
    assert Settled(tr.after, tr.step.desired[i]);
  }

  lemma {:induction false} ReconcileKeepsDone(cals: Calendars, t: Store, desired: seq<Entry>, now: int, j: JobId)
    requires Below(t.table) && j in t.table.jobs && !t.table.jobs[j].state.Pending?
    ensures var r := ReconcileAll(cals, t, desired, now).table; Below(r) && j in r.jobs && r.jobs[j] == t.table.jobs[j]
    decreases |desired|
  {
    if desired != [] {
      ReconcileKeepsDone(cals, t, desired[..|desired| - 1], now, j);
    }
  }

  /** A boot cancels the pending cadence job of each cron that is not registered any more. */
  lemma BootCancelsDropped(cals: Calendars, tr: Trace, name: string, id: JobId)
    requires Valid(cals, tr) && tr.Then? && tr.step.Boot?
    requires Canonical(Last(tr.before), name, id) && name !in NamesOf(tr.step.desired)
    ensures var before := Last(tr.before).table;
            && id in before.jobs && id in tr.after.table.jobs
            && (before.jobs[id].state.Pending? ==> tr.after.table.jobs[id] == CanceledRow(before.jobs[id], tr.step.now))
  {
    RunOk(cals, tr.before);
    var s, now := Last(tr.before), tr.step.now;
    CanonicalIsOwn(cals, s, name, id);
    BootKeeps(cals, s, tr.step.desired, now, tr.after);
    var gone := s.crons.Keys - NamesOf(tr.step.desired);
    var d :| DroppedExactly(s, d, gone, now) && tr.after == ReconcileAll(cals, d, tr.step.desired, now);
    if s.table.jobs[id].state.Pending? {
      assert name in gone && CadenceOf(s, gone, id);
      ReconcileKeepsDone(cals, d, tr.step.desired, now, id);
    }
  }

  /** The row with the registered catch-up policy and nothing else changed. */
  predicate OnlyPolicy(s: Store, r: Store, e: Entry) {
    && e.name in s.crons && e.name in r.crons
    && r.crons[e.name] == s.crons[e.name].(entry := s.crons[e.name].entry.(catchUp := e.catchUp))
  }

  /**
   Rebooting with the registry unchanged starts no second chain: with every chain live, the job table stays as
   it is.
   */
  lemma RebootIsIdempotent(cals: Calendars, s: Store, desired: seq<Entry>, now: int, r: Store)
    requires BootStep(cals, s, desired, now, r) && DistinctNames(desired)
    requires s.crons.Keys == NamesOf(desired) && AllSettled(s, desired)
    ensures r.table == s.table && r.crons.Keys == s.crons.Keys
    ensures forall i :: 0 <= i < |desired| ==> OnlyPolicy(s, r, desired[i])
  {
    var gone := s.crons.Keys - NamesOf(desired);
    var d :| DroppedExactly(s, d, gone, now) && r == ReconcileAll(cals, d, desired, now);
    assert gone == {};
    assert forall j :: !CadenceOf(s, {}, j);
    assert d.crons == s.crons;
    assert d.table.jobs == s.table.jobs;
    SettledStays(cals, s, desired, now);
  }

  /** `r` is `s` with the catch-up policies of `desired`. */
  ghost predicate OnlyPolicies(s: Store, r: Store, desired: seq<Entry>) {
    && r.table == s.table && r.crons.Keys == s.crons.Keys
    && (forall i :: 0 <= i < |desired| ==> OnlyPolicy(s, r, desired[i]))
    && (forall name :: name in s.crons && name !in NamesOf(desired) ==> r.crons[name] == s.crons[name])
  }

  lemma {:induction false} SettledStays(cals: Calendars, s: Store, desired: seq<Entry>, now: int)
    requires DistinctNames(desired) && AllSettled(s, desired)
    ensures OnlyPolicies(s, ReconcileAll(cals, s, desired, now), desired)
    decreases |desired|
  {
    if desired != [] {
      var n := |desired| - 1;
      var front := desired[..n];
      assert forall i :: 0 <= i < n ==> front[i] == desired[i];
      SettledStays(cals, s, front, now);
      assert desired == front + [desired[n]] && Settled(s, desired[n]);
      NotAmong(desired);
      PoliciesSnoc(cals, s, ReconcileAll(cals, s, front, now), front, desired[n], now);
    }
  }

  lemma PoliciesSnoc(cals: Calendars, s: Store, m: Store, front: seq<Entry>, e: Entry, now: int)
    requires OnlyPolicies(s, m, front) && Settled(s, e) && e.name !in NamesOf(front)
    ensures OnlyPolicies(s, Reconcile(cals, m, e, now), front + [e])
  {
    var r := Reconcile(cals, m, e, now);
    ReconcileSettled(cals, m, e, now);
    PoliciesKept(s, m, r, front, e.name);
    NamesSnoc(front + [e]);
    assert (front + [e])[..|front|] == front;
  }

  lemma PoliciesKept(s: Store, m: Store, r: Store, front: seq<Entry>, name: string)
    requires forall i :: 0 <= i < |front| ==> OnlyPolicy(s, m, front[i])
    requires name !in NamesOf(front) && r.crons.Keys == m.crons.Keys
    requires forall n :: n in m.crons && n != name ==> r.crons[n] == m.crons[n]
    ensures forall i :: 0 <= i < |front| ==> OnlyPolicy(s, r, front[i])
  {
    forall i | 0 <= i < |front| ensures OnlyPolicy(s, r, front[i]) {
      assert front[i].name in NamesOf(front);
    }
  }

  lemma NotAmong(desired: seq<Entry>)
    requires DistinctNames(desired) && desired != []
    ensures desired[|desired| - 1].name !in NamesOf(desired[..|desired| - 1])
  {
  }

  lemma ReconcileSettled(cals: Calendars, s: Store, e: Entry, now: int)
    requires Settled(s, e)
    ensures var r := Reconcile(cals, s, e, now);
            && r.table == s.table && r.crons.Keys == s.crons.Keys && OnlyPolicy(s, r, e)
            && forall name :: name in s.crons && name != e.name ==> r.crons[name] == s.crons[name]
  {
  }

  /**
   A changed catch-up policy reaches the row if and only if the cron is new, its schedule or target
   changed too, the policy did not change, or its cadence job is live: when the chain has to be
   restarted, the row is written back with the policy it had.
   */
  lemma PolicyEditTakesEffect(cals: Calendars, s: Store, e: Entry, now: int)
    requires e.name in s.crons ==> s.crons[e.name].entry.name == e.name
    ensures var r := Reconcile(cals, s, e, now);
            && e.name in r.crons
            && (r.crons[e.name].entry == e <==>
                  || e.name !in s.crons
                  || SpecChanged(s.crons[e.name], e)
                  || s.crons[e.name].entry.catchUp == e.catchUp
                  || Live(s.table, s.crons[e.name].cadenceJobId))
  {
  }
}
