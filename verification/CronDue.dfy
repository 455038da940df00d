/**
 When things are due: a cron's next tick at its next occurrence, a fire's work job at the fire time, over
 whole runs; and what a tick fires and where it leaves the anchor.
 */
module CronDue {
  import opened Prelude
  import opened SchedulerTable
  import opened CronCatchUp
  import opened CronKeys
  import opened CronCadence
  import opened CronRuns
  import opened CronFires
  import SchedulerRuns

  // ---------------------------------------------------------------- the next tick

  /**
   The job that a cron's row names is a cadence tick, and until a failure or an expired lease moves it, it
   is due at the first occurrence of the row's schedule after the row's anchor.
   */
  ghost predicate NextTickDue(cals: Calendars, s: Store, name: string)
    requires name in s.crons
  {
    var row := s.crons[name];
    && RowOk(cals, row.entry) && Pointed(s, name)
    && var job := s.table.jobs[row.cadenceJobId.value];
    && job.fnPath == "scheduler:_cronTick" && job.kind.MutationJob?
    && (job.attempts == 0 ==>
          LeastAfter(SpecOf(cals, row.entry.spec, row.entry.tz), row.lastScheduledTs.value, row.lastScheduledTs.value, job.nextTs))
  }

  ghost predicate AllDue(cals: Calendars, s: Store) {
    forall name :: name in s.crons ==> NextTickDue(cals, s, name)
  }

  lemma FirstIsLeast(spec: CronSpec, anchor: int)
    requires SpecOk(spec)
    ensures LeastAfter(spec, anchor, anchor, ComputeNextRun(spec, anchor))
  {
    NextRunIsLeast(spec, anchor, 0);
    forall x | anchor < x < ComputeNextRun(spec, anchor) ensures !Occurs(spec, anchor, x) {
      NextRunIsLeast(spec, anchor, x);
    }
  }

  /** A row that keeps schedule, anchor and job stays right while the table grows. */
  lemma DueStays(cals: Calendars, s: Store, r: Store, name: string, done: set<JobId>)
    requires name in s.crons && NextTickDue(cals, s, name) && Grown(s.table, r.table, done)
    requires name in r.crons && r.crons[name].entry.spec == s.crons[name].entry.spec && r.crons[name].entry.tz == s.crons[name].entry.tz
    requires r.crons[name].lastScheduledTs == s.crons[name].lastScheduledTs && r.crons[name].cadenceJobId == s.crons[name].cadenceJobId
    ensures NextTickDue(cals, r, name)
  {
  }

  lemma OthersDueStay(cals: Calendars, s: Store, r: Store, name: string)
    requires AllDue(cals, s) && Grown(s.table, r.table, {}) && r.crons.Keys == s.crons.Keys + {name}
    requires forall n :: n in s.crons && n != name ==> r.crons[n] == s.crons[n]
    requires name in r.crons && NextTickDue(cals, r, name)
    ensures AllDue(cals, r)
  {
    forall n | n in r.crons ensures NextTickDue(cals, r, n) {
      if n != name {
        DueStays(cals, s, r, n, {});
      }
    }
  }

  /** A cron gets a new cadence job. */
  lemma NewTickDue(cals: Calendars, s: Store, name: string, row: CronRow, anchor: int, now: int)
    requires Below(s.table) && AllDue(cals, s) && row.entry.name == name && RowOk(cals, row.entry) && row.lastScheduledTs == Some(anchor)
    ensures var runAt := ComputeNextRun(SpecOf(cals, row.entry.spec, row.entry.tz), anchor);
            AllDue(cals, Store(s.crons[name := row.(cadenceJobId := Some(s.table.nextId))], EnqueueCadence(s.table, name, runAt, now)))
  {
    var spec := SpecOf(cals, row.entry.spec, row.entry.tz);
    var runAt := ComputeNextRun(spec, anchor);
    var r := Store(s.crons[name := row.(cadenceJobId := Some(s.table.nextId))], EnqueueCadence(s.table, name, runAt, now));
    EnqueueCadenceGrows(s.table, name, runAt, now);
    FirstIsLeast(spec, anchor);
    assert NextTickDue(cals, r, name);
    OthersDueStay(cals, s, r, name);
  }

  lemma ReconcileDue(cals: Calendars, s: Store, e: Entry, now: int)
    requires StoreOk(cals, s) && AllDue(cals, s) && RowOk(cals, e)
    ensures AllDue(cals, Reconcile(cals, s, e, now))
  {
    if e.name !in s.crons {
      NewTickDue(cals, s, e.name, CronRow(e, Some(now), None), now, now);
    } else if SpecChanged(s.crons[e.name], e) {
      var t := CancelIfPending(s.table, s.crons[e.name].cadenceJobId, now);
      CancelGrows(s.table, s.crons[e.name].cadenceJobId, now);
      TableGrown(cals, s, t, {});
      NewTickDue(cals, Store(s.crons, t), e.name, CronRow(e, Some(now), None), now, now);
    } else {
      KeepDue(cals, s, e, now);
    }
  }

  lemma KeepDue(cals: Calendars, s: Store, e: Entry, now: int)
    requires StoreOk(cals, s) && AllDue(cals, s) && RowOk(cals, e) && e.name in s.crons && !SpecChanged(s.crons[e.name], e)
    ensures AllDue(cals, Reconcile(cals, s, e, now))
  {
    var row := s.crons[e.name];
    assert Pointed(s, e.name);
    if Live(s.table, row.cadenceJobId) {
      var r := Reconcile(cals, s, e, now);
      DueStays(cals, s, r, e.name, {});
      OthersDueStay(cals, s, r, e.name);
    } else {
      NewTickDue(cals, s, e.name, row, AnchorOf(row, now), now);
    }
  }

  lemma TableGrown(cals: Calendars, s: Store, t: Table, done: set<JobId>)
    requires AllDue(cals, s) && Grown(s.table, t, done)
    ensures AllDue(cals, Store(s.crons, t))
  {
    forall n | n in s.crons ensures NextTickDue(cals, Store(s.crons, t), n) {
      DueStays(cals, s, Store(s.crons, t), n, done);
    }
  }

  lemma {:induction false} ReconcileAllDue(cals: Calendars, s: Store, desired: seq<Entry>, now: int)
    requires StoreOk(cals, s) && AllDue(cals, s) && Registry(cals, desired)
    ensures AllDue(cals, ReconcileAll(cals, s, desired, now))
    decreases |desired|
  {
    if desired != [] {
      var n := |desired| - 1;
      RegistryFront(cals, desired);
      ReconcileMany(cals, s, desired[..n], now);
      ReconcileAllDue(cals, s, desired[..n], now);
      ReconcileDue(cals, ReconcileAll(cals, s, desired[..n], now), desired[n], now);
    }
  }

  lemma BootDue(cals: Calendars, s: Store, desired: seq<Entry>, now: int, r: Store)
    requires StoreOk(cals, s) && AllDue(cals, s) && Registry(cals, desired) && BootStep(cals, s, desired, now, r)
    ensures AllDue(cals, r)
  {
    var gone := s.crons.Keys - NamesOf(desired);
    var d :| DroppedExactly(s, d, gone, now) && r == ReconcileAll(cals, d, desired, now);
    DropMany(cals, s, d, gone, now);
    forall n | n in d.crons ensures NextTickDue(cals, d, n) {
      DueStays(cals, s, d, n, {});
    }
    ReconcileAllDue(cals, d, desired, now);
  }

  lemma TickDue(cals: Calendars, s: Store, name: string, id: JobId, kind: JobKind, now: int)
    requires StoreOk(cals, s) && KeysUnique(s.table) && AllDue(cals, s)
    ensures AllDue(cals, CronTick(cals, s, name, Some(id), kind, now))
  {
    if TickCounts(s, name, Some(id)) {
      var row := s.crons[name];
      assert Pointed(s, name);
      var spec := SpecOf(cals, row.entry.spec, row.entry.tz);
      var works := EnqueueWorks(s.table, row.entry, kind, FiredBy(cals, s, name, now), now);
      var newLast := LastOf(AnchorOf(row, now), Missed(spec, AnchorOf(row, now), now));
      WorksOnce(s.table, row.entry, kind, FiredBy(cals, s, name, now), now);
      TableGrown(cals, s, works, {});
      NewTickDue(cals, Store(s.crons, works), name, row.(lastScheduledTs := Some(newLast)), newLast, now);
    }
  }

  /**
   Over every run, the tick that a cron's row names is due at the next occurrence of the row's schedule,
   counted from the row's anchor.
   */
  lemma {:induction false} NextTickIsDue(cals: Calendars, tr: Trace)
    requires Valid(cals, tr)
    ensures AllDue(cals, Last(tr))
  {
    if tr.Then? {
      var s := Last(tr.before);
      RunOk(cals, tr.before);
      NextTickIsDue(cals, tr.before);
      match tr.step
      case Boot(desired, now) => BootDue(cals, s, desired, now, tr.after);
      case RunTick(id, kind, now) => TickDue(cals, s, s.table.jobs[id].args.cronName, id, kind, now);
      case Activity(step) =>
        ActivityGrows(s.table, step, tr.after.table);
        TableGrown(cals, s, tr.after.table, DoneBy(step));
    }
  }

  // ---------------------------------------------------------------- where a row is anchored

  /** A tick that counts leaves the row's anchor at the last occurrence up to now, or where it was if there is none. */
  lemma TickAnchorsExactly(cals: Calendars, s: Store, name: string, id: JobId, kind: JobKind, now: int)
    requires StoreOk(cals, s) && KeysUnique(s.table) && TickCounts(s, name, Some(id))
    ensures var r, row := CronTick(cals, s, name, Some(id), kind, now), s.crons[name];
            var spec := SpecOf(cals, row.entry.spec, row.entry.tz);
            && name in r.crons && r.crons[name].entry == row.entry && row.lastScheduledTs.Some? && r.crons[name].lastScheduledTs.Some?
            && var from, to := row.lastScheduledTs.value, r.crons[name].lastScheduledTs.value;
            && (to == from || InWindow(spec, from, now, to))
            && (forall x :: InWindow(spec, from, now, x) ==> x <= to)
  {
    var row := s.crons[name];
    assert Pointed(s, name);
    var spec, from := SpecOf(cals, row.entry.spec, row.entry.tz), row.lastScheduledTs.value;
    TickIsExact(spec, from, now, 0);
    forall x | InWindow(spec, from, now, x) ensures x <= LastOf(from, Missed(spec, from, now)) {
      TickIsExact(spec, from, now, x);
    }
  }

  /** What a tick fires is what the row's catch-up policy picks from the occurrences since the row's anchor. */
  lemma TickFiresByPolicy(cals: Calendars, s: Store, name: string, id: JobId, kind: JobKind, now: int, at: int)
    requires StoreOk(cals, s) && IsCadence(s.table, id) && s.table.jobs[id].args == CadenceArgs(name, id) && TickCounts(s, name, Some(id))
    ensures var row := s.crons[name];
            row.lastScheduledTs.Some? &&
            (FiredAt(FiredIn(cals, s, RunTick(id, kind, now), name), at) <==>
               PolicyFires(SpecOf(cals, row.entry.spec, row.entry.tz), row.entry.catchUp, row.lastScheduledTs.value, now, at))
  {
    var row := s.crons[name];
    assert Pointed(s, name);
    var fired, more := FiredBy(cals, s, name, now), FiredIn(cals, s, RunTick(id, kind, now), name);
    ChosenMeans(SpecOf(cals, row.entry.spec, row.entry.tz), row.entry.catchUp, row.lastScheduledTs.value, now, at);
    if at in fired {
      var i :| 0 <= i < |fired| && fired[i] == at;
      assert more[i].at == at;
    }
    if FiredAt(more, at) {
      var i :| 0 <= i < |more| && more[i].at == at;
      assert fired[i] == at;
    }
  }

  /** Nothing of what the registration says about schedule and target has changed. */
  predicate SameCron(row: CronRow, e: Entry) {
    row.entry.spec == e.spec && row.entry.tz == e.tz && row.entry.workFnPath == e.workFnPath && row.entry.workArgs == e.workArgs
  }

  /** A cron that is new or was changed counts from the boot, any other from where it was. */
  predicate AnchoredBy(s: Store, r: Store, e: Entry, now: int) {
    && e.name in r.crons
    && r.crons[e.name].lastScheduledTs == (if e.name in s.crons && SameCron(s.crons[e.name], e) then s.crons[e.name].lastScheduledTs else Some(now))
  }

  lemma {:induction false} ReconcileSkips(cals: Calendars, s: Store, desired: seq<Entry>, now: int, name: string)
    requires forall i :: 0 <= i < |desired| ==> desired[i].name != name
    ensures var r := ReconcileAll(cals, s, desired, now);
            (name in r.crons <==> name in s.crons) && (name in s.crons ==> r.crons[name] == s.crons[name])
    decreases |desired|
  {
    if desired != [] {
      ReconcileSkips(cals, s, desired[..|desired| - 1], now, name);
    }
  }

  lemma {:induction false} ReconcileAnchors(cals: Calendars, s: Store, desired: seq<Entry>, now: int, i: nat)
    requires DistinctNames(desired) && i < |desired|
    ensures AnchoredBy(s, ReconcileAll(cals, s, desired, now), desired[i], now)
    decreases |desired|
  {
    var n := |desired| - 1;
    var front := desired[..n];
    if i < n {
      ReconcileAnchors(cals, s, front, now, i);
      assert front[i] == desired[i] && desired[i].name != desired[n].name;
    } else {
      ReconcileSkips(cals, s, front, now, desired[n].name);
    }
  }

  /** After a boot every registered cron is anchored where it was, if its schedule and target are the same, and otherwise at the boot. */
  lemma BootAnchors(cals: Calendars, s: Store, desired: seq<Entry>, now: int, r: Store, i: nat)
    requires Registry(cals, desired) && BootStep(cals, s, desired, now, r) && i < |desired|
    ensures AnchoredBy(s, r, desired[i], now)
  {
    var d :| DroppedExactly(s, d, s.crons.Keys - NamesOf(desired), now) && r == ReconcileAll(cals, d, desired, now);
    ReconcileAnchors(cals, d, desired, now, i);
    assert desired[i].name in NamesOf(desired);
  }

  /** The registry has the cron with another schedule or target. */
  predicate Replaced(s: Store, desired: seq<Entry>, name: string)
    requires name in s.crons
  {
    exists i :: 0 <= i < |desired| && desired[i].name == name && !SameCron(s.crons[name], desired[i])
  }

  /** Reconciling one cron does not touch the cadence jobs of another. */
  lemma ReconcileLeaves(cals: Calendars, s: Store, e: Entry, now: int, name: string, j: JobId)
    requires StoreOk(cals, s) && j in s.table.jobs && s.table.jobs[j].args.CadenceArgs? && s.table.jobs[j].args.cronName == name != e.name
    ensures var r := Reconcile(cals, s, e, now); j in r.table.jobs && r.table.jobs[j] == s.table.jobs[j]
  {
    if e.name in s.crons {
      assert Pointed(s, e.name);
    }
  }

  lemma ReplaceCancels(cals: Calendars, s: Store, e: Entry, now: int, id: JobId)
    requires StoreOk(cals, s) && Canonical(s, e.name, id)
    ensures var r := Reconcile(cals, s, e, now);
            id in s.table.jobs && id in r.table.jobs
            && r.table.jobs[id] == if s.table.jobs[id].state.Pending? && !SameCron(s.crons[e.name], e) then CanceledRow(s.table.jobs[id], now) else s.table.jobs[id]
  {
    assert Pointed(s, e.name);
  }

  lemma {:induction false} ReconcileCancels(cals: Calendars, s: Store, desired: seq<Entry>, now: int, name: string, id: JobId)
    requires StoreOk(cals, s) && Registry(cals, desired) && Canonical(s, name, id)
    ensures var r := ReconcileAll(cals, s, desired, now);
            id in s.table.jobs && id in r.table.jobs
            && r.table.jobs[id] == if s.table.jobs[id].state.Pending? && Replaced(s, desired, name) then CanceledRow(s.table.jobs[id], now) else s.table.jobs[id]
    decreases |desired|
  {
    CanonicalIsOwn(cals, s, name, id);
    if desired != [] {
      var n := |desired| - 1;
      var front, e := desired[..n], desired[n];
      RegistryFront(cals, desired);
      ReconcileMany(cals, s, front, now);
      ReconcileCancels(cals, s, front, now, name, id);
      var m := ReconcileAll(cals, s, front, now);
      if e.name == name {
        ReconcileSkips(cals, s, front, now, name);
        assert !Replaced(s, front, name);
        ReplaceCancels(cals, m, e, now, id);
        assert Replaced(s, desired, name) <==> !SameCron(s.crons[name], e);
      } else {
        ReconcileLeaves(cals, m, e, now, name, id);
        ReplacedFront(s, desired, name);
      }
    }
  }

  lemma ReplacedFront(s: Store, desired: seq<Entry>, name: string)
    requires name in s.crons && desired != [] && desired[|desired| - 1].name != name
    ensures Replaced(s, desired, name) <==> Replaced(s, desired[..|desired| - 1], name)
  {
    var front := desired[..|desired| - 1];
    if Replaced(s, desired, name) {
      var i :| 0 <= i < |desired| && desired[i].name == name && !SameCron(s.crons[name], desired[i]);
      assert front[i] == desired[i];
    }
    if Replaced(s, front, name) {
      var i :| 0 <= i < |front| && front[i].name == name && !SameCron(s.crons[name], front[i]);
      assert desired[i] == front[i];
    }
  }

  /**
   Of the cadence jobs that the rows named before, a boot cancels exactly the pending ones whose cron is not
   registered any more or has another schedule or target, and leaves all others as they are.
   */
  lemma BootCancelsExactly(cals: Calendars, tr: Trace, name: string, id: JobId)
    requires Valid(cals, tr) && tr.Then? && tr.step.Boot? && Canonical(Last(tr.before), name, id)
    ensures var s, l := Last(tr.before), tr.step;
            id in s.table.jobs && id in tr.after.table.jobs
            && tr.after.table.jobs[id] ==
               if s.table.jobs[id].state.Pending? && (name !in NamesOf(l.desired) || Replaced(s, l.desired, name))
               then CanceledRow(s.table.jobs[id], l.now) else s.table.jobs[id]
  {
    RunOk(cals, tr.before);
    var s, now := Last(tr.before), tr.step.now;
    CanonicalIsOwn(cals, s, name, id);
    var gone := s.crons.Keys - NamesOf(tr.step.desired);
    var d :| DroppedExactly(s, d, gone, now) && tr.after == ReconcileAll(cals, d, tr.step.desired, now);
    DropMany(cals, s, d, gone, now);
    if name in NamesOf(tr.step.desired) {
      forall other | other in gone && other in s.crons ensures s.crons[other].cadenceJobId != Some(id) {
        assert Pointed(s, other);
      }
      assert d.table.jobs[id] == s.table.jobs[id];
      ReconcileCancels(cals, d, tr.step.desired, now, name, id);
    } else {
      assert name in gone && CadenceOf(s, gone, id);
      DroppedStays(cals, d, tr.step.desired, now, name, id);
    }
  }

  /** The jobs of a cron that is not registered are not touched by the reconciliation of those that are. */
  lemma {:induction false} DroppedStays(cals: Calendars, s: Store, desired: seq<Entry>, now: int, name: string, j: JobId)
    requires StoreOk(cals, s) && Registry(cals, desired) && name !in NamesOf(desired)
    requires j in s.table.jobs && s.table.jobs[j].args.CadenceArgs? && s.table.jobs[j].args.cronName == name
    ensures var r := ReconcileAll(cals, s, desired, now); j in r.table.jobs && r.table.jobs[j] == s.table.jobs[j]
    decreases |desired|
  {
    if desired != [] {
      var n := |desired| - 1;
      RegistryFront(cals, desired);
      NamesSnoc(desired);
      ReconcileMany(cals, s, desired[..n], now);
      DroppedStays(cals, s, desired[..n], now, name, j);
      ReconcileLeaves(cals, ReconcileAll(cals, s, desired[..n], now), desired[n], now, name, j);
    }
  }

  // ---------------------------------------------------------------- work jobs are due when they were to fire

  /** The fire has its work job, and until a failure or an expired lease moves it, it is due at the fire time. */
  ghost predicate WorkDue(t: Table, f: Fire) {
    exists j :: Carries(t, f, j) && (t.jobs[j].attempts == 0 ==> t.jobs[j].nextTs == f.at)
  }

  lemma WorkDueStays(t: Table, r: Table, f: Fire, done: set<JobId>)
    requires WorkDue(t, f) && Grown(t, r, done)
    ensures WorkDue(r, f)
  {
    var j :| Carries(t, f, j) && (t.jobs[j].attempts == 0 ==> t.jobs[j].nextTs == f.at);
    assert Carries(r, f, j);
  }

  /** A fire that finds its key free gets a new job: the row's function and arguments, its own key, due at the fire time. */
  lemma NewWorkIs(t: Table, entry: Entry, kind: JobKind, at: int, now: int)
    requires Below(t) && KeyFree(t, entry.name, at)
    ensures var s := EnqueueWork(t, entry, kind, at, now);
            && s.jobs.Keys == t.jobs.Keys + {t.nextId} && t.nextId !in t.jobs && (forall j :: j in t.jobs ==> s.jobs[j] == t.jobs[j])
            && AsSubmitted(s.jobs[t.nextId], entry.workFnPath, kind, Args(entry.workArgs),
                           NO_OPTS.(runAt := Some(at), idempotencyKey := Some(CronKey(entry.name, at))), None, now)
  {
  }

  lemma NewWorkDue(t: Table, entry: Entry, kind: JobKind, at: int, now: int)
    requires Below(t) && KeyFree(t, entry.name, at)
    ensures WorkDue(EnqueueWork(t, entry, kind, at, now), Fire(entry, at))
  {
    NewWorkIs(t, entry, kind, at, now);
    assert Carries(EnqueueWork(t, entry, kind, at, now), Fire(entry, at), t.nextId);
  }

  /** Earlier fires of the same tick do not take the key. */
  lemma LastKeyFree(t: Table, entry: Entry, kind: JobKind, fires: seq<int>, now: int)
    requires Below(t) && KeysUnique(t) && Increasing(fires) && fires != [] && KeyFree(t, entry.name, fires[|fires| - 1])
    ensures KeyFree(EnqueueWorks(t, entry, kind, fires[..|fires| - 1], now), entry.name, fires[|fires| - 1])
  {
    var n := |fires| - 1;
    WorksOnce(t, entry, kind, fires[..n], now);
    var m, key := EnqueueWorks(t, entry, kind, fires[..n], now), CronKey(entry.name, fires[n]);
    forall j | j in m.jobs ensures m.jobs[j].idempotencyKey != Some(key) {
      assert !Keyed(t, key, j);
      if FireKey(entry.name, fires[..n], key) {
        FireKeyMeans(entry.name, fires[..n], entry.name, fires[n]);
      }
    }
  }

  lemma OneMoreWorkDue(t: Table, entry: Entry, kind: JobKind, at: int, now: int, f: Fire)
    requires Below(t) && WorkDue(t, f)
    ensures WorkDue(EnqueueWork(t, entry, kind, at, now), f)
  {
    if KeyFree(t, entry.name, at) {
      var j :| Carries(t, f, j) && (t.jobs[j].attempts == 0 ==> t.jobs[j].nextTs == f.at);
      NewWorkIs(t, entry, kind, at, now);
      assert Carries(EnqueueWork(t, entry, kind, at, now), f, j);
    }
  }

  lemma LastWorkDue(t: Table, entry: Entry, kind: JobKind, fires: seq<int>, now: int)
    requires Below(t) && KeysUnique(t) && Increasing(fires) && fires != [] && KeyFree(t, entry.name, fires[|fires| - 1])
    ensures var n := |fires| - 1;
            WorkDue(EnqueueWork(EnqueueWorks(t, entry, kind, fires[..n], now), entry, kind, fires[n], now), Fire(entry, fires[n]))
  {
    var n := |fires| - 1;
    LastKeyFree(t, entry, kind, fires, now);
    assert Below(EnqueueWorks(t, entry, kind, fires[..n], now)) by {
      WorksStayClear(t, entry, kind, fires[..n], now, 0);
    }
    NewWorkDue(EnqueueWorks(t, entry, kind, fires[..n], now), entry, kind, fires[n], now);
  }

  lemma {:induction false} WorksDue(t: Table, entry: Entry, kind: JobKind, fires: seq<int>, now: int, i: nat)
    requires Below(t) && KeysUnique(t) && Increasing(fires) && i < |fires| && KeyFree(t, entry.name, fires[i])
    ensures WorkDue(EnqueueWorks(t, entry, kind, fires, now), Fire(entry, fires[i]))
    decreases |fires|
  {
    var n := |fires| - 1;
    if i < n {
      assert Below(EnqueueWorks(t, entry, kind, fires[..n], now)) by {
        WorksStayClear(t, entry, kind, fires[..n], now, 0);
      }
      WorksDue(t, entry, kind, fires[..n], now, i);
      OneMoreWorkDue(EnqueueWorks(t, entry, kind, fires[..n], now), entry, kind, fires[n], now, Fire(entry, fires[i]));
    } else {
      LastWorkDue(t, entry, kind, fires, now);
    }
  }

  /** When it was fired, fire `i` of the run found its key free. */
  ghost predicate FoundFree(cals: Calendars, tr: Trace, name: string, i: nat)
    requires i < |Fires(cals, tr, name)|
  {
    if i < |Fires(cals, tr.before, name)| then FoundFree(cals, tr.before, name, i)
    else KeyFree(Last(tr.before).table, name, Fires(cals, tr, name)[i].at)
  }

  lemma TickWorkDue(cals: Calendars, s: Store, name: string, id: JobId, kind: JobKind, now: int, i: nat)
    requires StoreOk(cals, s) && KeysUnique(s.table) && IsCadence(s.table, id)
    requires i < |FiredIn(cals, s, RunTick(id, kind, now), name)|
    requires KeyFree(s.table, name, FiredIn(cals, s, RunTick(id, kind, now), name)[i].at)
    ensures WorkDue(CronTick(cals, s, s.table.jobs[id].args.cronName, Some(id), kind, now).table, FiredIn(cals, s, RunTick(id, kind, now), name)[i])
  {
    var entry, fired := s.crons[name].entry, FiredBy(cals, s, name, now);
    assert Pointed(s, name);
    TickAnchors(cals, s, name, id, kind, now);
    TickKeeps(cals, s, name, id, kind, now);
    WorksDue(s.table, entry, kind, fired, now, i);
    WorkDueStays(EnqueueWorks(s.table, entry, kind, fired, now), CronTick(cals, s, name, Some(id), kind, now).table, Fire(entry, fired[i]), {});
  }

  /** Over every run, the work job of a fire that found its key free is due at the fire time. */
  lemma {:induction false} FiresAreDue(cals: Calendars, tr: Trace, name: string, i: nat)
    requires Valid(cals, tr) && i < |Fires(cals, tr, name)| && FoundFree(cals, tr, name, i)
    ensures WorkDue(Last(tr).table, Fires(cals, tr, name)[i])
  {
    var s, fires := Last(tr.before), Fires(cals, tr.before, name);
    if i < |fires| {
      FiresAreDue(cals, tr.before, name, i);
      var done := StepGrown(cals, tr);
      WorkDueStays(s.table, tr.after.table, fires[i], done);
    } else {
      RunOk(cals, tr.before);
      TickWorkDue(cals, s, name, tr.step.id, tr.step.kind, tr.step.now, i - |fires|);
    }
  }
}
