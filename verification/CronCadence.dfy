/**
 Recurring schedules: the `crons` table, the boot reconciliation with the registered crons, and the
 self-rescheduling cadence tick. One row per cron name.
 */
module CronCadence {
  import opened Prelude
  import opened SchedulerTable
  import opened CronCatchUp
  import opened CronKeys

  /** A schedule as it is stored; the calendar of an expression in a time zone is the parser's. */
  datatype StoredSpec = EveryMs(ms: int) | Expression(expr: string)

  type Calendars = (string, string) -> Calendar

  function SpecOf(cals: Calendars, spec: StoredSpec, tz: string): CronSpec {
    match spec
    case EveryMs(ms) => Interval(ms)
    case Expression(expr) => Cron(cals(expr, tz))
  }

  /** What the app registers, and what a row keeps of it. */
  datatype Entry = Entry(name: string, spec: StoredSpec, tz: string, catchUp: CatchUp, workFnPath: string, workArgs: Json)

  datatype CronRow = CronRow(entry: Entry, lastScheduledTs: Option<int>, cadenceJobId: Option<JobId>)

  datatype Store = Store(crons: map<string, CronRow>, table: Table)

  const CRON_TICK := "scheduler:_cronTick"

  // ---------------------------------------------------------------- the mutations as functions

  /** `enqueueCadenceJob`: the job's own id goes into its arguments. */
  function CadenceJob(name: string, id: JobId, runAt: int, now: int): Job {
    NewJob(CRON_TICK, MutationJob, CadenceArgs(name, id), NO_OPTS.(runAt := Some(runAt)), None, now)
  }

  function EnqueueCadence(t: Table, name: string, runAt: int, now: int): Table {
    Insert(t, CadenceJob(name, t.nextId, runAt, now))
  }

  /** One fired occurrence's work job, inserted unless its key exists. */
  function EnqueueWork(t: Table, entry: Entry, kind: JobKind, fireTs: int, now: int): Table {
    Enqueue(t, entry.workFnPath, kind, Args(entry.workArgs),
            NO_OPTS.(runAt := Some(fireTs), idempotencyKey := Some(CronKey(entry.name, fireTs))), now)
  }

  function EnqueueWorks(t: Table, entry: Entry, kind: JobKind, fires: seq<int>, now: int): Table
    decreases |fires|
  {
    if fires == [] then t
    else EnqueueWork(EnqueueWorks(t, entry, kind, fires[..|fires| - 1], now), entry, kind, fires[|fires| - 1], now)
  }

  function AnchorOf(row: CronRow, now: int): int {
    if row.lastScheduledTs.Some? then row.lastScheduledTs.value else now
  }

  ghost predicate RowOk(cals: Calendars, e: Entry) {
    SpecOk(SpecOf(cals, e.spec, e.tz))
  }

  ghost predicate RowsOk(cals: Calendars, s: Store) {
    forall name :: name in s.crons ==> RowOk(cals, s.crons[name].entry) && s.crons[name].entry.name == name
  }

  /** A tick of a stale chain, or for a cron that is gone, has no effect. */
  predicate TickCounts(s: Store, name: string, jobId: Option<JobId>) {
    name in s.crons
    && (jobId.None? || s.crons[name].cadenceJobId.None? || jobId == s.crons[name].cadenceJobId)
  }

  /** `_cronTick`. */
  ghost function CronTick(cals: Calendars, s: Store, name: string, jobId: Option<JobId>, kind: JobKind, now: int): Store
    requires RowsOk(cals, s)
  {
    if !TickCounts(s, name, jobId) then s
    else
      var row := s.crons[name];
      var spec := SpecOf(cals, row.entry.spec, row.entry.tz);
      var missed := Missed(spec, AnchorOf(row, now), now);
      var newLast := LastOf(AnchorOf(row, now), missed);
      var worked := EnqueueWorks(s.table, row.entry, kind, Chosen(row.entry.catchUp, missed), now);
      Store(s.crons[name := row.(lastScheduledTs := Some(newLast), cadenceJobId := Some(worked.nextId))],
            EnqueueCadence(worked, name, ComputeNextRun(spec, newLast), now))
  }

  function CancelIfPending(t: Table, id: Option<JobId>, now: int): Table {
    if id.Some? && id.value in t.jobs && t.jobs[id.value].state.Pending?
    then t.(jobs := t.jobs[id.value := CanceledRow(t.jobs[id.value], now)])
    else t
  }

  /** Reconciliation, first half: a cron that is not registered any more. */
  function Drop(s: Store, name: string, now: int): Store
    requires name in s.crons
  {
    Store(s.crons - {name}, CancelIfPending(s.table, s.crons[name].cadenceJobId, now))
  }

  predicate SpecChanged(row: CronRow, e: Entry) {
    row.entry.spec != e.spec || row.entry.tz != e.tz || row.entry.workFnPath != e.workFnPath || row.entry.workArgs != e.workArgs
  }

  predicate Live(t: Table, id: Option<JobId>) {
    id.Some? && id.value in t.jobs && (t.jobs[id.value].state.Pending? || t.jobs[id.value].state.InProgress?)
  }

  /**
   Reconciliation, second half: one registered cron. When a new cadence job is needed for a row whose
   schedule is unchanged, the row is written back as it was read, so a changed catch-up policy is lost.
   */
  function Reconcile(cals: Calendars, s: Store, e: Entry, now: int): Store {
    var spec := SpecOf(cals, e.spec, e.tz);
    if e.name !in s.crons then
      Store(s.crons[e.name := CronRow(e, Some(now), Some(s.table.nextId))],
            EnqueueCadence(s.table, e.name, ComputeNextRun(spec, now), now))
    else
      var row := s.crons[e.name];
      if SpecChanged(row, e) then
        var t := CancelIfPending(s.table, row.cadenceJobId, now);
        Store(s.crons[e.name := CronRow(e, Some(now), Some(t.nextId))], EnqueueCadence(t, e.name, ComputeNextRun(spec, now), now))
      else
        var kept := row.(entry := row.entry.(catchUp := e.catchUp));
        if Live(s.table, row.cadenceJobId) then s.(crons := s.crons[e.name := kept])
        else
          Store(s.crons[e.name := row.(cadenceJobId := Some(s.table.nextId))],
                EnqueueCadence(s.table, e.name, ComputeNextRun(spec, AnchorOf(row, now)), now))
  }

  function ReconcileAll(cals: Calendars, s: Store, desired: seq<Entry>, now: int): Store
    decreases |desired|
  {
    if desired == [] then s
    else Reconcile(cals, ReconcileAll(cals, s, desired[..|desired| - 1], now), desired[|desired| - 1], now)
  }

  function NamesOf(desired: seq<Entry>): set<string> {
    set i | 0 <= i < |desired| :: desired[i].name
  }

  /** The crons that were dropped, and in which state: their rows are gone, their pending cadence jobs canceled. */
  ghost predicate DroppedExactly(s: Store, d: Store, gone: set<string>, now: int) {
    && d.crons == s.crons - gone
    && d.table.nextId == s.table.nextId && d.table.jobs.Keys == s.table.jobs.Keys
    && (forall j :: j in s.table.jobs ==>
          d.table.jobs[j] == if s.table.jobs[j].state.Pending? && CadenceOf(s, gone, j) then CanceledRow(s.table.jobs[j], now) else s.table.jobs[j])
  }

  ghost predicate CadenceOf(s: Store, names: set<string>, j: JobId) {
    exists name :: name in names && name in s.crons && s.crons[name].cadenceJobId == Some(j)
  }

  // ---------------------------------------------------------------- the mutations as methods

  class CronDb {
    var crons: map<string, CronRow>
    const db: JobDb

    constructor (db: JobDb)
      ensures this.db == db && crons == map[]
    {
      this.db := db;
      crons := map[];
    }

    ghost function Rows(): Store
      reads this, db
    {
      Store(crons, db.Rows())
    }

    method EnqueueCadenceJob(name: string, runAt: int, now: int) returns (id: JobId)
      modifies db
      ensures id == old(db.nextId) && db.Rows() == EnqueueCadence(old(db.Rows()), name, runAt, now)
    {
      id := db.EnqueueInternal(CRON_TICK, MutationJob, Args(name), NO_OPTS.(runAt := Some(runAt)), now);
      db.jobs := db.jobs[id := db.jobs[id].(args := CadenceArgs(name, id))];
    }

    method Tick(cals: Calendars, name: string, jobId: Option<JobId>, kind: JobKind, now: int)
      requires RowsOk(cals, Rows())
      modifies this, db
      ensures Rows() == CronTick(cals, old(Rows()), name, jobId, kind, now)
    {
      if name !in crons {
        return;
      }
      var row := crons[name];
      if jobId.Some? && row.cadenceJobId.Some? && jobId != row.cadenceJobId {
        return;
      }
      var anchor := AnchorOf(row, now);
      var toFire, next, newLast := CronCatchUp.Tick(SpecOf(cals, row.entry.spec, row.entry.tz), row.entry.catchUp, anchor, now);
      for i := 0 to |toFire|
        invariant crons == old(crons)
        invariant db.Rows() == EnqueueWorks(old(db.Rows()), row.entry, kind, toFire[..i], now)
      {
        assert toFire[..i + 1][..i] == toFire[..i];
        var _ := db.EnqueueInternal(row.entry.workFnPath, kind, Args(row.entry.workArgs),
          NO_OPTS.(runAt := Some(toFire[i]), idempotencyKey := Some(CronKey(name, toFire[i]))), now);
      }
      assert toFire[..|toFire|] == toFire;
      var cadenceJobId := EnqueueCadenceJob(name, next, now);
      crons := crons[name := row.(lastScheduledTs := Some(newLast), cadenceJobId := Some(cadenceJobId))];
    }

    method CancelCadence(id: Option<JobId>, now: int)
      modifies db
      ensures db.Rows() == CancelIfPending(old(db.Rows()), id, now)
    {
      if id.Some? && id.value in db.jobs && db.jobs[id.value].state.Pending? {
        db.jobs := db.jobs[id.value := CanceledRow(db.jobs[id.value], now)];
      }
    }

    /** Rows whose cron the app does not register any more. */
    method DropUnregistered(names: set<string>, now: int)
      modifies this, db
      ensures DroppedExactly(old(Rows()), Rows(), old(crons).Keys - names, now)
    {
      ghost var s := Rows();
      var existing := crons.Keys - names;
      ghost var gone: set<string> := {};
      while existing != {}
        invariant gone !! existing && gone + existing == s.crons.Keys - names
        invariant DroppedExactly(s, Rows(), gone, now)
        decreases existing
      {
        var name :| name in existing;
        existing := existing - {name};
        DropOne(s, Rows(), gone, name, now);
        CancelCadence(crons[name].cadenceJobId, now);
        crons := crons - {name};
        gone := gone + {name};
      }
      assert gone == s.crons.Keys - names;
    }

    /** `reconcileCrons`. */
    method ReconcileCrons(cals: Calendars, desired: seq<Entry>, now: int)
      modifies this, db
      ensures exists d :: DroppedExactly(old(Rows()), d, old(crons).Keys - NamesOf(desired), now)
                          && Rows() == ReconcileAll(cals, d, desired, now)
    {
      var names := NamesOf(desired);
      DropUnregistered(names, now);
      ghost var d := Rows();
      for i := 0 to |desired|
        invariant Rows() == ReconcileAll(cals, d, desired[..i], now)
      {
        assert desired[..i + 1][..i] == desired[..i];
        ReconcileEntry(cals, desired[i], now);
      }
      assert desired[..|desired|] == desired;
    }

    method ReconcileEntry(cals: Calendars, e: Entry, now: int)
      modifies this, db
      ensures Rows() == Reconcile(cals, old(Rows()), e, now)
    {
      var spec := SpecOf(cals, e.spec, e.tz);
      if e.name !in crons {
        crons := crons[e.name := CronRow(e, Some(now), None)];
        var cadenceJobId := EnqueueCadenceJob(e.name, ComputeNextRun(spec, now), now);
        crons := crons[e.name := CronRow(e, Some(now), Some(cadenceJobId))];
        return;
      }
      var row := crons[e.name];
      if SpecChanged(row, e) {
        CancelCadence(row.cadenceJobId, now);
        var cadenceJobId := EnqueueCadenceJob(e.name, ComputeNextRun(spec, now), now);
        crons := crons[e.name := CronRow(e, Some(now), Some(cadenceJobId))];
        return;
      }
      var kept := row.(entry := row.entry.(catchUp := e.catchUp));
      crons := crons[e.name := kept];
      if !Live(Table(db.jobs, db.nextId), row.cadenceJobId) {
        var cadenceJobId := EnqueueCadenceJob(e.name, ComputeNextRun(spec, AnchorOf(row, now)), now);
        crons := crons[e.name := row.(cadenceJobId := Some(cadenceJobId))];
      }
    }
  }

  lemma DropOne(s: Store, d: Store, gone: set<string>, name: string, now: int)
    requires DroppedExactly(s, d, gone, now) && name in d.crons
    ensures DroppedExactly(s, Drop(d, name, now), gone + {name}, now)
  {
  }
}
