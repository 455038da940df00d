/** What a recurring schedule fires over whole runs, how often, and which of its fires get their work job. */
module CronFires {
  import opened Prelude
  import opened SchedulerTable
  import opened CronCatchUp
  import opened CronKeys
  import opened CronCadence
  import opened CronRuns
  import SchedulerRuns

  /** The cron fires of a run's steps. */
  ghost function FiredIn(cals: Calendars, s: Store, l: Label, name: string): seq<Fire> {
    if l.RunTick? && IsCadence(s.table, l.id) && s.table.jobs[l.id].args.cronName == name && RowsOk(cals, s)
       && TickCounts(s, name, Some(s.table.jobs[l.id].args.cadenceId))
    then
      var fired := FiredBy(cals, s, name, l.now);
      seq(|fired|, i requires 0 <= i < |fired| => Fire(s.crons[name].entry, fired[i]))
    else []
  }

  /** Everything a run fired for cron `name`, in order. */
  ghost function Fires(cals: Calendars, tr: Trace, name: string): seq<Fire> {
    if tr.Empty? then [] else Fires(cals, tr.before, name) + FiredIn(cals, Last(tr.before), tr.step, name)
  }

  /** The app does not use the keys of cron `name` itself. */
  ghost predicate NoClash(tr: Trace, name: string) {
    tr.Then? ==>
      && NoClash(tr.before, name)
      && (tr.step.Activity? && tr.step.step.Submitting? && tr.step.step.opts.idempotencyKey.Some? ==>
            forall at :: tr.step.step.opts.idempotencyKey.value != CronKey(name, at))
  }

  /** No boot anchors cron `name` anew at a time before one of its fires. */
  ghost predicate AnchorsAhead(cals: Calendars, tr: Trace, name: string) {
    tr.Then? ==>
      && AnchorsAhead(cals, tr.before, name)
      && (tr.step.Boot? && name in tr.after.crons && !SameAnchor(Last(tr.before), tr.after, name) ==>
            AllUpTo(Fires(cals, tr.before, name), tr.after.crons[name].lastScheduledTs))
  }

  predicate SameAnchor(s: Store, r: Store, name: string)
    requires name in r.crons
  {
    name in s.crons && r.crons[name].lastScheduledTs == s.crons[name].lastScheduledTs
  }

  predicate AllUpTo(fires: seq<Fire>, t: Option<int>) {
    forall i :: 0 <= i < |fires| ==> t.Some? && fires[i].at <= t.value
  }

  predicate Ascending(fires: seq<Fire>) {
    forall i, j :: 0 <= i < j < |fires| ==> fires[i].at < fires[j].at
  }

  predicate FiredAt(fires: seq<Fire>, at: int) {
    exists i :: 0 <= i < |fires| && fires[i].at == at
  }

  /** The fires of a cron lie at or before its anchor. */
  ghost predicate InTime(fires: seq<Fire>, name: string, s: Store) {
    && Ascending(fires)
    && (name in s.crons ==> AllUpTo(fires, s.crons[name].lastScheduledTs))
  }

  ghost predicate KeysFired(fires: seq<Fire>, name: string, t: Table) {
    forall at :: !KeyFree(t, name, at) ==> FiredAt(fires, at)
  }

  /** `r` is `s` after a step that fired `more` of cron `name`: nothing, or times between the old anchor and the new. */
  ghost predicate Adds(s: Store, r: Store, name: string, more: seq<Fire>, now: int) {
    && r.crons.Keys == s.crons.Keys && Ascending(more)
    && (name !in s.crons ==> more == [])
    && (name in s.crons ==>
          var from, to := s.crons[name].lastScheduledTs, r.crons[name].lastScheduledTs;
          && from.Some? && to.Some? && from.value <= to.value && (from.value <= now ==> to.value <= now)
          && forall i :: 0 <= i < |more| ==> from.value < more[i].at <= to.value && more[i].entry.name == name)
  }

  lemma OwnTickAdds(cals: Calendars, s: Store, name: string, id: JobId, kind: JobKind, now: int)
    requires StoreOk(cals, s) && KeysUnique(s.table) && TickCounts(s, name, Some(id))
    requires IsCadence(s.table, id) && s.table.jobs[id].args == CadenceArgs(name, id)
    ensures Adds(s, CronTick(cals, s, name, Some(id), kind, now), name, FiredIn(cals, s, RunTick(id, kind, now), name), now)
  {
    assert Pointed(s, name);
    TickGrows(cals, s, name, id, kind, now);
    TickAnchors(cals, s, name, id, kind, now);
  }

  lemma OtherTickAdds(cals: Calendars, s: Store, name: string, ticked: string, id: JobId, kind: JobKind, now: int)
    requires StoreOk(cals, s) && KeysUnique(s.table) && ticked != name
    ensures Adds(s, CronTick(cals, s, ticked, Some(id), kind, now), name, [], now)
  {
    if name in s.crons {
      assert Pointed(s, name);
    }
    if TickCounts(s, ticked, Some(id)) {
      TickGrows(cals, s, ticked, id, kind, now);
    }
  }

  lemma TickAdds(cals: Calendars, s: Store, name: string, id: JobId, kind: JobKind, now: int)
    requires StoreOk(cals, s) && KeysUnique(s.table) && IsCadence(s.table, id)
    ensures Adds(s, CronTick(cals, s, s.table.jobs[id].args.cronName, Some(id), kind, now), name,
                 FiredIn(cals, s, RunTick(id, kind, now), name), now)
  {
    var ticked := s.table.jobs[id].args.cronName;
    if ticked != name {
      OtherTickAdds(cals, s, name, ticked, id, kind, now);
    } else if TickCounts(s, name, Some(id)) {
      OwnTickAdds(cals, s, name, id, kind, now);
    } else if name in s.crons {
      assert Pointed(s, name);
    }
  }

  lemma InTimeTick(cals: Calendars, s: Store, fires: seq<Fire>, name: string, id: JobId, kind: JobKind, now: int)
    requires StoreOk(cals, s) && KeysUnique(s.table) && IsCadence(s.table, id) && InTime(fires, name, s)
    ensures InTime(fires + FiredIn(cals, s, RunTick(id, kind, now), name), name,
                   CronTick(cals, s, s.table.jobs[id].args.cronName, Some(id), kind, now))
  {
    TickAdds(cals, s, name, id, kind, now);
  }

  lemma {:induction false} RunInTime(cals: Calendars, tr: Trace, name: string)
    requires Valid(cals, tr) && AnchorsAhead(cals, tr, name)
    ensures InTime(Fires(cals, tr, name), name, Last(tr))
  {
    if tr.Then? {
      RunOk(cals, tr.before);
      RunInTime(cals, tr.before, name);
      var s, fires := Last(tr.before), Fires(cals, tr.before, name);
      match tr.step
      case Boot(desired, now) => assert fires + [] == fires;
      case RunTick(id, kind, now) => InTimeTick(cals, s, fires, name, id, kind, now);
      case Activity(step) => assert fires + [] == fires;
    }
  }

  lemma {:induction false} FiresNamed(cals: Calendars, tr: Trace, name: string, i: nat)
    requires Valid(cals, tr) && i < |Fires(cals, tr, name)|
    ensures Fires(cals, tr, name)[i].entry.name == name
  {
    RunOk(cals, tr.before);
    if i < |Fires(cals, tr.before, name)| {
      FiresNamed(cals, tr.before, name, i);
    } else {
      TickAdds(cals, Last(tr.before), name, tr.step.id, tr.step.kind, tr.step.now);
    }
  }

  // ---------------------------------------------------------------- a clock that does not step back

  /** The latest boot or tick. */
  function Clock(tr: Trace): Option<int> {
    match tr
    case Empty => None
    case Then(_, Boot(_, now), _) => Some(now)
    case Then(_, RunTick(_, _, now), _) => Some(now)
    case Then(before, Activity(_), _) => Clock(before)
  }

  ghost predicate ClockForward(tr: Trace) {
    tr.Then? ==>
      && ClockForward(tr.before)
      && (tr.step.Boot? ==> Later(Clock(tr.before), tr.step.now))
      && (tr.step.RunTick? ==> Later(Clock(tr.before), tr.step.now))
  }

  /** Fires and anchor are not ahead of the clock. */
  ghost predicate BehindClock(fires: seq<Fire>, name: string, s: Store, clock: Option<int>) {
    && AllUpTo(fires, clock)
    && (name in s.crons && s.crons[name].lastScheduledTs.Some? ==> clock.Some? && s.crons[name].lastScheduledTs.value <= clock.value)
  }

  lemma BehindBoot(fires: seq<Fire>, name: string, s: Store, clock: Option<int>, now: int, r: Store)
    requires BehindClock(fires, name, s, clock) && Later(clock, now) && RowsAfter(s, r, now)
    ensures BehindClock(fires, name, r, Some(now))
    ensures name in r.crons && !SameAnchor(s, r, name) ==> AllUpTo(fires, r.crons[name].lastScheduledTs)
  {
    assert name in r.crons ==> RowAfter(s, r, name, now);
  }

  lemma BehindTick(cals: Calendars, s: Store, fires: seq<Fire>, name: string, clock: Option<int>, id: JobId, kind: JobKind, now: int)
    requires StoreOk(cals, s) && KeysUnique(s.table) && IsCadence(s.table, id)
    requires BehindClock(fires, name, s, clock) && Later(clock, now)
    ensures BehindClock(fires + FiredIn(cals, s, RunTick(id, kind, now), name), name,
                        CronTick(cals, s, s.table.jobs[id].args.cronName, Some(id), kind, now), Some(now))
  {
    TickAdds(cals, s, name, id, kind, now);
  }

  /** As long as the clock does not step back from one boot or tick to the next, every boot anchors ahead. */
  lemma {:induction false} ClockForwardSuffices(cals: Calendars, tr: Trace, name: string)
    requires Valid(cals, tr) && ClockForward(tr)
    ensures AnchorsAhead(cals, tr, name) && BehindClock(Fires(cals, tr, name), name, Last(tr), Clock(tr))
  {
    if tr.Then? {
      RunOk(cals, tr.before);
      ClockForwardSuffices(cals, tr.before, name);
      var s, fires := Last(tr.before), Fires(cals, tr.before, name);
      match tr.step
      case Boot(desired, now) =>
        BootKeeps(cals, s, desired, now, tr.after);
        BehindBoot(fires, name, s, Clock(tr.before), now, tr.after);
        assert fires + [] == fires;
      case RunTick(id, kind, now) => BehindTick(cals, s, fires, name, Clock(tr.before), id, kind, now);
      case Activity(step) => assert fires + [] == fires;
    }
  }

  // ---------------------------------------------------------------- fires and their jobs

  lemma SameKeysFree(t: Table, r: Table, name: string, at: int)
    requires SameKeys(t, r)
    ensures KeyFree(t, name, at) == KeyFree(r, name, at)
  {
    var key := CronKey(name, at);
    if HasKey(t, key) {
      var j :| j in t.jobs && t.jobs[j].idempotencyKey == Some(key);
      assert Keyed(t, key, j);
    }
    if HasKey(r, key) {
      var j :| j in r.jobs && r.jobs[j].idempotencyKey == Some(key);
      assert Keyed(r, key, j);
    }
  }

  lemma KeysFiredSame(fires: seq<Fire>, name: string, t: Table, r: Table)
    requires KeysFired(fires, name, t) && SameKeys(t, r)
    ensures KeysFired(fires, name, r)
  {
    forall at | !KeyFree(r, name, at) ensures FiredAt(fires, at) {
      SameKeysFree(t, r, name, at);
    }
  }

  lemma KeysFiredActivity(fires: seq<Fire>, name: string, t: Table, l: SchedulerRuns.Label, r: Table)
    requires Below(t) && SchedulerRuns.Allowed(t, l, r) && KeysFired(fires, name, t)
    requires l.Submitting? && l.opts.idempotencyKey.Some? ==> forall at :: l.opts.idempotencyKey.value != CronKey(name, at)
    ensures KeysFired(fires, name, r)
  {
    ActivityGrows(t, l, r);
    forall at | !KeyFree(r, name, at) ensures FiredAt(fires, at) {
      var key := CronKey(name, at);
      var j :| j in r.jobs && r.jobs[j].idempotencyKey == Some(key);
      assert Keyed(r, key, j);
      assert Keyed(t, key, j);
      assert !KeyFree(t, name, at);
    }
  }

  /** The work jobs of a tick use no keys but those of what it fires. */
  lemma KeysFiredWorks(fires: seq<Fire>, name: string, t: Table, entry: Entry, kind: JobKind, fired: seq<int>, now: int)
    requires Below(t) && KeysUnique(t) && KeysFired(fires, name, t)
    ensures forall at :: !KeyFree(EnqueueWorks(t, entry, kind, fired, now), name, at) ==>
              FiredAt(fires, at) || (entry.name == name && at in fired)
  {
    WorksOnce(t, entry, kind, fired, now);
    var r := EnqueueWorks(t, entry, kind, fired, now);
    forall at | !KeyFree(r, name, at) ensures FiredAt(fires, at) || (entry.name == name && at in fired) {
      var key := CronKey(name, at);
      var j :| j in r.jobs && r.jobs[j].idempotencyKey == Some(key);
      assert Keyed(r, key, j);
      if Keyed(t, key, j) {
        assert !KeyFree(t, name, at);
      } else {
        FireKeyMeans(entry.name, fired, name, at);
      }
    }
  }

  lemma FiredAppend(fires: seq<Fire>, more: seq<Fire>, fired: seq<int>)
    requires |more| == |fired| && forall i :: 0 <= i < |more| ==> more[i].at == fired[i]
    ensures forall at :: FiredAt(fires, at) || at in fired ==> FiredAt(fires + more, at)
  {
    forall at | FiredAt(fires, at) || at in fired ensures FiredAt(fires + more, at) {
      if FiredAt(fires, at) {
        var i :| 0 <= i < |fires| && fires[i].at == at;
        assert (fires + more)[i].at == at;
      } else {
        var i :| 0 <= i < |fired| && fired[i] == at;
        assert (fires + more)[|fires| + i].at == at;
      }
    }
  }

  lemma KeysFiredTick(cals: Calendars, s: Store, fires: seq<Fire>, name: string, id: JobId, kind: JobKind, now: int)
    requires StoreOk(cals, s) && KeysUnique(s.table) && IsCadence(s.table, id) && KeysFired(fires, name, s.table)
    requires TickCounts(s, s.table.jobs[id].args.cronName, Some(id))
    ensures KeysFired(fires + FiredIn(cals, s, RunTick(id, kind, now), name), name,
                      CronTick(cals, s, s.table.jobs[id].args.cronName, Some(id), kind, now).table)
  {
    var ticked := s.table.jobs[id].args.cronName;
    var entry, fired := s.crons[ticked].entry, FiredBy(cals, s, ticked, now);
    var works := EnqueueWorks(s.table, entry, kind, fired, now);
    var more := FiredIn(cals, s, RunTick(id, kind, now), name);
    TickKeeps(cals, s, ticked, id, kind, now);
    KeysFiredWorks(fires, name, s.table, entry, kind, fired, now);
    if ticked == name {
      FiredAppend(fires, more, fired);
    } else {
      assert fires + more == fires;
    }
    KeysFiredSame(fires + more, name, works, CronTick(cals, s, ticked, Some(id), kind, now).table);
  }

  /** Only what was fired has a key. */
  lemma {:induction false} RunKeysFired(cals: Calendars, tr: Trace, name: string)
    requires Valid(cals, tr) && NoClash(tr, name)
    ensures KeysFired(Fires(cals, tr, name), name, Last(tr).table)
  {
    if tr.Then? {
      RunOk(cals, tr.before);
      RunKeysFired(cals, tr.before, name);
      var s, fires := Last(tr.before), Fires(cals, tr.before, name);
      match tr.step
      case Boot(desired, now) =>
        BootKeeps(cals, s, desired, now, tr.after);
        KeysFiredSame(fires, name, s.table, tr.after.table);
        assert fires + [] == fires;
      case Activity(step) =>
        KeysFiredActivity(fires, name, s.table, step, tr.after.table);
        assert fires + [] == fires;
      case RunTick(id, kind, now) =>
        if TickCounts(s, s.table.jobs[id].args.cronName, Some(id)) {
          KeysFiredTick(cals, s, fires, name, id, kind, now);
        } else {
          assert fires + [] == fires;
        }
    }
  }

  /** Whatever was fired has its key in the table. */
  ghost predicate AllKeyed(fires: seq<Fire>, name: string, t: Table) {
    forall i :: 0 <= i < |fires| ==> !KeyFree(t, name, fires[i].at)
  }

  lemma KeyedOn(t: Table, r: Table, name: string, at: int, done: set<JobId>)
    requires !KeyFree(t, name, at) && Grown(t, r, done)
    ensures !KeyFree(r, name, at)
  {
    var j :| j in t.jobs && t.jobs[j].idempotencyKey == Some(CronKey(name, at));
    assert j in r.jobs && SchedulerRuns.SameIdentity(t.jobs[j], r.jobs[j]);
  }

  lemma AllKeyedOn(fires: seq<Fire>, name: string, t: Table, r: Table, done: set<JobId>)
    requires AllKeyed(fires, name, t) && Grown(t, r, done)
    ensures AllKeyed(fires, name, r)
  {
    forall i | 0 <= i < |fires| ensures !KeyFree(r, name, fires[i].at) {
      KeyedOn(t, r, name, fires[i].at, done);
    }
  }

  lemma KeyedTick(cals: Calendars, s: Store, fires: seq<Fire>, name: string, id: JobId, kind: JobKind, now: int)
    requires StoreOk(cals, s) && KeysUnique(s.table) && IsCadence(s.table, id) && AllKeyed(fires, name, s.table)
    requires TickCounts(s, s.table.jobs[id].args.cronName, Some(id))
    ensures AllKeyed(fires + FiredIn(cals, s, RunTick(id, kind, now), name), name,
                     CronTick(cals, s, s.table.jobs[id].args.cronName, Some(id), kind, now).table)
  {
    var ticked := s.table.jobs[id].args.cronName;
    var entry, fired := s.crons[ticked].entry, FiredBy(cals, s, ticked, now);
    var works := EnqueueWorks(s.table, entry, kind, fired, now);
    var more := FiredIn(cals, s, RunTick(id, kind, now), name);
    TickKeeps(cals, s, ticked, id, kind, now);
    AllKeyedOn(fires, name, s.table, works, {});
    assert AllKeyed(more, name, works) by {
      forall i | 0 <= i < |more| ensures !KeyFree(works, name, more[i].at) {
        WorksKeyed(s.table, entry, kind, fired, now, i);
      }
    }
    AllKeyedOn(fires + more, name, works, CronTick(cals, s, ticked, Some(id), kind, now).table, {});
  }

  lemma {:induction false} RunKeyed(cals: Calendars, tr: Trace, name: string)
    requires Valid(cals, tr)
    ensures AllKeyed(Fires(cals, tr, name), name, Last(tr).table)
  {
    if tr.Then? {
      RunOk(cals, tr.before);
      RunKeyed(cals, tr.before, name);
      var s, fires := Last(tr.before), Fires(cals, tr.before, name);
      match tr.step
      case Boot(desired, now) =>
        BootKeeps(cals, s, desired, now, tr.after);
        AllKeyedOn(fires, name, s.table, tr.after.table, {});
        assert fires + [] == fires;
      case Activity(step) =>
        ActivityGrows(s.table, step, tr.after.table);
        AllKeyedOn(fires, name, s.table, tr.after.table, DoneBy(step));
        assert fires + [] == fires;
      case RunTick(id, kind, now) =>
        if TickCounts(s, s.table.jobs[id].args.cronName, Some(id)) {
          KeyedTick(cals, s, fires, name, id, kind, now);
        } else {
          assert fires + [] == fires;
        }
    }
  }

  // ---------------------------------------------------------------- which fires get their job

  /** When it was fired, fire `i` of the run found its key free, or its own work job under it. */
  ghost predicate FoundClear(cals: Calendars, tr: Trace, name: string, i: nat)
    requires i < |Fires(cals, tr, name)|
  {
    if i < |Fires(cals, tr.before, name)| then FoundClear(cals, tr.before, name, i)
    else Clear(Last(tr.before).table, Fires(cals, tr, name)[i])
  }

  /** Once there is a job under its key, nothing decides anew whether a fire is carried. */
  lemma CarriedStays(t: Table, r: Table, f: Fire, done: set<JobId>)
    requires Grown(t, r, done) && KeysUnique(r) && !KeyFree(t, f.entry.name, f.at)
    ensures !KeyFree(r, f.entry.name, f.at) && (Carried(r, f) <==> Carried(t, f))
  {
    var key := CronKey(f.entry.name, f.at);
    KeyedOn(t, r, f.entry.name, f.at, done);
    KeyedIsUsed(t, f.entry.name, f.at);
    var holder :| Keyed(t, key, holder);
    assert Keyed(r, key, holder);
    if Carried(t, f) {
      CarriedOn(t, r, f, done);
    }
    if Carried(r, f) {
      var j :| Carries(r, f, j);
      assert j == holder;
      assert Carries(t, f, holder);
    }
  }

  lemma SameKeysUnique(t: Table, r: Table)
    requires KeysUnique(t) && SameKeys(t, r)
    ensures KeysUnique(r)
  {
    forall key, i, j | Keyed(r, key, i) && Keyed(r, key, j) ensures i == j {
      assert Keyed(t, key, i) && Keyed(t, key, j);
    }
  }

  /** A tick decides for each of its fires by what was under the key before. */
  lemma TickCarriesIff(cals: Calendars, s: Store, name: string, id: JobId, kind: JobKind, now: int, i: nat)
    requires StoreOk(cals, s) && KeysUnique(s.table) && IsCadence(s.table, id)
    requires i < |FiredIn(cals, s, RunTick(id, kind, now), name)|
    ensures var f := FiredIn(cals, s, RunTick(id, kind, now), name)[i];
            Carried(CronTick(cals, s, s.table.jobs[id].args.cronName, Some(id), kind, now).table, f) <==> Clear(s.table, f)
  {
    var entry, fired := s.crons[name].entry, FiredBy(cals, s, name, now);
    var works := EnqueueWorks(s.table, entry, kind, fired, now);
    TickKeeps(cals, s, name, id, kind, now);
    WorksKeyed(s.table, entry, kind, fired, now, i);
    WorksCarriedIff(s.table, entry, kind, fired, now, i);
    SameKeysUnique(works, CronTick(cals, s, name, Some(id), kind, now).table);
    CarriedStays(works, CronTick(cals, s, name, Some(id), kind, now).table, Fire(entry, fired[i]), {});
  }

  /** The table of a run is unique in its keys, and grows with the step. */
  lemma StepGrown(cals: Calendars, tr: Trace) returns (done: set<JobId>)
    requires Valid(cals, tr) && tr.Then?
    ensures Grown(Last(tr.before).table, tr.after.table, done) && KeysUnique(tr.after.table)
  {
    RunOk(cals, tr);
    RunOk(cals, tr.before);
    var s := Last(tr.before);
    done := {};
    match tr.step
    case Boot(desired, now) => BootKeeps(cals, s, desired, now, tr.after);
    case Activity(step) =>
      ActivityGrows(s.table, step, tr.after.table);
      done := DoneBy(step);
    case RunTick(id, kind, now) =>
      if TickCounts(s, s.table.jobs[id].args.cronName, Some(id)) {
        TickGrows(cals, s, s.table.jobs[id].args.cronName, id, kind, now);
      }
  }

  /**
   Over any run, whatever its clock and the app's own keys: a fire has a work job with the target its row
   had if and only if, when it was fired, its key was free or the job under it already had that target.
   */
  lemma {:induction false} CarriedIffFoundClear(cals: Calendars, tr: Trace, name: string, i: nat)
    requires Valid(cals, tr) && i < |Fires(cals, tr, name)|
    ensures Carried(Last(tr).table, Fires(cals, tr, name)[i]) <==> FoundClear(cals, tr, name, i)
  {
    var s, fires := Last(tr.before), Fires(cals, tr.before, name);
    if i < |fires| {
      CarriedIffFoundClear(cals, tr.before, name, i);
      RunKeyed(cals, tr.before, name);
      FiresNamed(cals, tr.before, name, i);
      var done := StepGrown(cals, tr);
      CarriedStays(s.table, tr.after.table, fires[i], done);
    } else {
      RunOk(cals, tr.before);
      TickCarriesIff(cals, s, name, tr.step.id, tr.step.kind, tr.step.now, i - |fires|);
    }
  }

  /** The keys of a tick's fires are free if only earlier fires have keys, and the anchor is not before these. */
  lemma FreeTick(cals: Calendars, s: Store, fires: seq<Fire>, name: string, id: JobId, kind: JobKind, now: int, i: nat)
    requires StoreOk(cals, s) && KeysUnique(s.table) && IsCadence(s.table, id)
    requires KeysFired(fires, name, s.table) && InTime(fires, name, s)
    requires i < |FiredIn(cals, s, RunTick(id, kind, now), name)|
    ensures Clear(s.table, FiredIn(cals, s, RunTick(id, kind, now), name)[i])
  {
    TickAdds(cals, s, name, id, kind, now);
    assert !FiredAt(fires, FiredIn(cals, s, RunTick(id, kind, now), name)[i].at);
  }

  lemma {:induction false} AllFoundClear(cals: Calendars, tr: Trace, name: string, i: nat)
    requires Valid(cals, tr) && NoClash(tr, name) && AnchorsAhead(cals, tr, name) && i < |Fires(cals, tr, name)|
    ensures FoundClear(cals, tr, name, i)
  {
    var fires := Fires(cals, tr.before, name);
    if i < |fires| {
      AllFoundClear(cals, tr.before, name, i);
    } else {
      RunOk(cals, tr.before);
      RunInTime(cals, tr.before, name);
      RunKeysFired(cals, tr.before, name);
      FreeTick(cals, Last(tr.before), fires, name, tr.step.id, tr.step.kind, tr.step.now, i - |fires|);
    }
  }

  /**
   Each occurrence once. Over any run, whatever its clock and the app's own keys, one job has the key of an
   occurrence that was fired, and it is a work job with the row's target exactly for the fires that
   found their key free or such a job under it. If the app keeps off the cron's keys, only what was
   fired has a key in use. If no boot anchors the cron before one of its fires, the fires are strictly
   increasing in time, across crashes, edits, removals and reboots, so none is fired twice. With
   both, every fire finds its key free or has its job.
   */
  lemma FiredExactlyOnce(cals: Calendars, tr: Trace, name: string)
    requires Valid(cals, tr)
    ensures var t, fires := Last(tr).table, Fires(cals, tr, name);
            && (forall at :: FiredAt(fires, at) ==> OneJob(t, CronKey(name, at)))
            && (forall i :: 0 <= i < |fires| ==> fires[i].entry.name == name && (Carried(t, fires[i]) <==> FoundClear(cals, tr, name, i)))
            && (NoClash(tr, name) ==> forall at :: HasKey(t, CronKey(name, at)) <==> FiredAt(fires, at))
            && (AnchorsAhead(cals, tr, name) ==> Ascending(fires))
            && (NoClash(tr, name) && AnchorsAhead(cals, tr, name) ==> forall i :: 0 <= i < |fires| ==> Carried(t, fires[i]))
  {
    RunOk(cals, tr);
    RunKeyed(cals, tr, name);
    var t, fires := Last(tr).table, Fires(cals, tr, name);
    forall at | FiredAt(fires, at) ensures HasKey(t, CronKey(name, at)) && OneJob(t, CronKey(name, at)) {
      var k :| 0 <= k < |fires| && fires[k].at == at;
      KeyIsOneJob(t, name, at);
    }
    forall i | 0 <= i < |fires| ensures fires[i].entry.name == name && (Carried(t, fires[i]) <==> FoundClear(cals, tr, name, i)) {
      FiresNamed(cals, tr, name, i);
      CarriedIffFoundClear(cals, tr, name, i);
    }
    if NoClash(tr, name) {
      RunKeysFired(cals, tr, name);
      forall at ensures HasKey(t, CronKey(name, at)) <==> FiredAt(fires, at) {
        assert KeyFree(t, name, at) == !HasKey(t, CronKey(name, at));
      }
    }
    if AnchorsAhead(cals, tr, name) {
      RunInTime(cals, tr, name);
      if NoClash(tr, name) {
        forall i | 0 <= i < |fires| ensures Carried(t, fires[i]) {
          AllFoundClear(cals, tr, name, i);
        }
      }
    }
  }

  ghost predicate OneJob(t: Table, key: string) {
    exists j :: Keyed(t, key, j) && forall k :: Keyed(t, key, k) ==> k == j
  }

  lemma KeyIsOneJob(t: Table, name: string, at: int)
    requires KeysUnique(t) && !KeyFree(t, name, at)
    ensures OneJob(t, CronKey(name, at))
  {
    var key := CronKey(name, at);
    var j :| j in t.jobs && t.jobs[j].idempotencyKey == Some(key);
    assert Keyed(t, key, j);
  }

  // ---------------------------------------------------------------- runs that lose a fire

  /** A boot that registers one cron, new or edited. */
  lemma BootOne(cals: Calendars, tr: Trace, e: Entry, now: int) returns (longer: Trace)
    requires Valid(cals, tr) && RowOk(cals, e) && Last(tr).crons.Keys <= {e.name}
    requires e.name in Last(tr).crons ==> SpecChanged(Last(tr).crons[e.name], e)
    ensures Valid(cals, longer) && longer.Then? && longer.before == tr && longer.step == Boot([e], now)
    ensures longer.after.crons.Keys == {e.name}
    ensures longer.after.crons[e.name].entry == e && longer.after.crons[e.name].lastScheduledTs == Some(now)
  {
    var s := Last(tr);
    assert NamesOf([e]) == {e.name} by {
      assert [e][0].name in NamesOf([e]);
    }
    var gone := s.crons.Keys - NamesOf([e]);
    assert gone == {} && s.crons - {} == s.crons;
    assert DroppedExactly(s, s, gone, now);
    assert [e][..0] == [];
    assert ReconcileAll(cals, s, [e], now) == Reconcile(cals, s, e, now);
    longer := Then(tr, Boot([e], now), Reconcile(cals, s, e, now));
    assert BootStep(cals, s, [e], now, longer.after);
  }

  /** The next run of a row, from its anchor. */
  function NextOf(cals: Calendars, row: CronRow): int {
    ComputeNextRun(SpecOf(cals, row.entry.spec, row.entry.tz), AnchorOf(row, 0))
  }

  /** The canonical tick, exactly when the first occurrence is due. */
  lemma FirstTick(cals: Calendars, s: Store, name: string, id: JobId, kind: JobKind)
    requires StoreOk(cals, s) && KeysUnique(s.table) && name in s.crons && s.crons[name].cadenceJobId == Some(id)
    requires IsCadence(s.table, id) && s.table.jobs[id].args == CadenceArgs(name, id) && s.crons[name].lastScheduledTs.Some?
    ensures var next := NextOf(cals, s.crons[name]);
            FiredIn(cals, s, RunTick(id, kind, next), name) == [Fire(s.crons[name].entry, next)]
  {
    var row := s.crons[name];
    var spec, next := SpecOf(cals, row.entry.spec, row.entry.tz), NextOf(cals, row);
    NextRunIsLeast(spec, next, next);
    assert Missed(spec, next, next) == [];
    assert Missed(spec, AnchorOf(row, 0), next) == [next] + [];
    assert FiredBy(cals, s, name, next) == [next];
  }

  lemma TickOne(cals: Calendars, tr: Trace, name: string, kind: JobKind) returns (longer: Trace)
    requires Valid(cals, tr) && name in Last(tr).crons
    ensures Valid(cals, longer) && longer.Then? && longer.before == tr && longer.step.RunTick?
    ensures Fires(cals, longer, name) == Fires(cals, tr, name) + [Fire(Last(tr).crons[name].entry, NextOf(cals, Last(tr).crons[name]))]
    ensures Grown(Last(tr).table, longer.after.table, {}) && longer.after.crons.Keys == Last(tr).crons.Keys
    ensures longer.after.crons[name].entry == Last(tr).crons[name].entry
  {
    var s := Last(tr);
    RunOk(cals, tr);
    assert Pointed(s, name);
    var id, next := s.crons[name].cadenceJobId.value, NextOf(cals, s.crons[name]);
    var r := CronTick(cals, s, name, Some(id), kind, next);
    FirstTick(cals, s, name, id, kind);
    TickKeepsEntry(cals, s, name, id, kind, next);
    longer := Then(tr, RunTick(id, kind, next), r);
  }

  /** A tick fires nothing before the next run. */
  lemma FiresFromNext(cals: Calendars, s: Store, name: string, id: JobId, kind: JobKind, now: int)
    requires StoreOk(cals, s) && KeysUnique(s.table) && name in s.crons && IsCadence(s.table, id)
    ensures var more := FiredIn(cals, s, RunTick(id, kind, now), name);
            Ascending(more) && forall i :: 0 <= i < |more| ==> NextOf(cals, s.crons[name]) <= more[i].at
  {
    TickAdds(cals, s, name, id, kind, now);
    assert Pointed(s, name);
    var row := s.crons[name];
    var spec, anchor := SpecOf(cals, row.entry.spec, row.entry.tz), row.lastScheduledTs.value;
    var more, fired := FiredIn(cals, s, RunTick(id, kind, now), name), FiredBy(cals, s, name, now);
    MissedIsExact(spec, anchor, now);
    ChosenIsPart(row.entry.catchUp, Missed(spec, anchor, now));
    forall i | 0 <= i < |more| ensures NextOf(cals, row) <= more[i].at {
      assert more[i].at == fired[i] && fired[i] in fired;
      NextRunIsLeast(spec, anchor, fired[i]);
    }
  }

  /** `longer` is `tr` and one more tick, of any cadence job at any time. */
  ghost predicate OneMoreTick(cals: Calendars, tr: Trace, longer: Trace) {
    Valid(cals, longer) && longer.Then? && longer.before == tr && longer.step.RunTick?
  }

  lemma AscendingJoin(fires: seq<Fire>, more: seq<Fire>, next: int)
    requires Ascending(fires) && Ascending(more)
    requires forall i :: 0 <= i < |fires| ==> fires[i].at < next
    requires forall i :: 0 <= i < |more| ==> next <= more[i].at
    ensures Ascending(fires + more)
  {
  }

  /**
   When a cron goes back in time: there is a tick that fires it at or before a time it was fired at already
   if and only if its next run, from the anchor, is not after all of its fires.
   */
  lemma RefiresIff(cals: Calendars, tr: Trace, name: string)
    requires Valid(cals, tr) && name in Last(tr).crons && Ascending(Fires(cals, tr, name))
    ensures (exists longer :: OneMoreTick(cals, tr, longer) && !Ascending(Fires(cals, longer, name))) <==>
            exists i :: 0 <= i < |Fires(cals, tr, name)| && NextOf(cals, Last(tr).crons[name]) <= Fires(cals, tr, name)[i].at
  {
    var s, fires, next := Last(tr), Fires(cals, tr, name), NextOf(cals, Last(tr).crons[name]);
    if i :| 0 <= i < |fires| && next <= fires[i].at {
      var longer := TickOne(cals, tr, name, MutationJob);
      var all := Fires(cals, longer, name);
      assert all[i] == fires[i] && all[|fires|].at == next;
      assert OneMoreTick(cals, tr, longer) && !Ascending(all);
    } else {
      RunOk(cals, tr);
      forall longer | OneMoreTick(cals, tr, longer) ensures Ascending(Fires(cals, longer, name)) {
        var l := longer.step;
        FiresFromNext(cals, s, name, l.id, l.kind, l.now);
        AscendingJoin(fires, FiredIn(cals, s, l, name), next);
      }
    }
  }

  lemma TickKeepsEntry(cals: Calendars, s: Store, name: string, id: JobId, kind: JobKind, now: int)
    requires StoreOk(cals, s) && KeysUnique(s.table) && TickCounts(s, name, Some(id))
    ensures var r := CronTick(cals, s, name, Some(id), kind, now);
            Grown(s.table, r.table, {}) && r.crons.Keys == s.crons.Keys && r.crons[name].entry == s.crons[name].entry
  {
    TickGrows(cals, s, name, id, kind, now);
  }

  /** The first fire of a cron that is anchored at `now`. */
  function FirstFire(cals: Calendars, e: Entry, now: int): Fire {
    Fire(e, ComputeNextRun(SpecOf(cals, e.spec, e.tz), now))
  }

  /** A boot that registers one cron, new or edited, and its first tick. */
  lemma BootAndTick(cals: Calendars, tr: Trace, e: Entry, now: int, kind: JobKind) returns (longer: Trace)
    requires Valid(cals, tr) && RowOk(cals, e) && Last(tr).crons.Keys <= {e.name}
    requires e.name in Last(tr).crons ==> SpecChanged(Last(tr).crons[e.name], e)
    ensures Valid(cals, longer) && (NoClash(tr, e.name) ==> NoClash(longer, e.name))
    ensures Fires(cals, tr, e.name) == [] && AnchorsAhead(cals, tr, e.name) ==> AnchorsAhead(cals, longer, e.name)
    ensures Fires(cals, longer, e.name) == Fires(cals, tr, e.name) + [FirstFire(cals, e, now)]
    ensures Last(longer).crons.Keys == {e.name} && Last(longer).crons[e.name].entry == e
    ensures Grown(Last(tr).table, Last(longer).table, {})
  {
    var s := Last(tr);
    var booted := BootOne(cals, tr, e, now);
    assert Fires(cals, booted, e.name) == Fires(cals, tr, e.name) + [] == Fires(cals, tr, e.name);
    longer := TickOne(cals, booted, e.name, kind);
    RunOk(cals, tr);
    BootKeeps(cals, s, [e], now, booted.after);
    GrownTrans(s.table, booted.after.table, longer.after.table);
  }

  /**
   Without the condition on anchors an occurrence can be fired twice, and lost the second time: edit a
   cron's arguments, with a clock that has stepped back behind its last fire. The key is in use, so
   the fire for the edited target gets no job.
   */
  lemma RefiredAfterStepBack(cals: Calendars, e: Entry, edited: Entry, now: int, kind: JobKind) returns (tr: Trace)
    requires RowOk(cals, e) && edited == e.(workArgs := edited.workArgs) && edited.workArgs != e.workArgs
    ensures Valid(cals, tr) && NoClash(tr, e.name)
    ensures Fires(cals, tr, e.name) == [FirstFire(cals, e, now), FirstFire(cals, edited, now)]
    ensures FirstFire(cals, edited, now).at == FirstFire(cals, e, now).at
    ensures Carried(Last(tr).table, FirstFire(cals, e, now)) && !Carried(Last(tr).table, FirstFire(cals, edited, now))
  {
    var f := FirstFire(cals, e, now);
    var first := BootAndTick(cals, Empty, e, now, kind);
    FiredExactlyOnce(cals, first, e.name);
    assert Carried(Last(first).table, Fires(cals, first, e.name)[0]);
    tr := BootAndTick(cals, first, edited, now, kind);
    CarriedOn(Last(first).table, Last(tr).table, f, {});
    RunOk(cals, tr);
    OneTarget(Last(tr).table, f, FirstFire(cals, edited, now));
  }

  /**
   Without the condition on the app's keys an occurrence can be lost under any clock: a job that the app
   submits under the key before takes the fire, and the cron's target gets no job while the anchor
   moves on.
   */
  lemma ClashTakesFire(cals: Calendars, e: Entry, now: int, kind: JobKind, fnPath: string, json: Json) returns (tr: Trace)
    requires RowOk(cals, e) && fnPath != e.workFnPath
    ensures Valid(cals, tr) && AnchorsAhead(cals, tr, e.name) && Fires(cals, tr, e.name) == [FirstFire(cals, e, now)]
    ensures var t, f := Last(tr).table, FirstFire(cals, e, now);
            !Carried(t, f) && OneJob(t, CronKey(e.name, f.at)) && forall j :: Keyed(t, CronKey(e.name, f.at), j) ==> t.jobs[j].fnPath == fnPath
  {
    var f := FirstFire(cals, e, now);
    var submitted := SubmitUnder(cals, fnPath, kind, json, CronKey(e.name, f.at), now, e.name);
    tr := BootAndTick(cals, submitted, e, now, kind);
    assert KeysUnique(Last(tr).table) by {
      RunOk(cals, tr);
    }
    HolderStays(Last(submitted).table, Last(tr).table, f, 0);
  }

  /** The job that has a fire's key with another target has it for good, and alone. */
  lemma HolderStays(t: Table, r: Table, f: Fire, j: JobId)
    requires Grown(t, r, {}) && KeysUnique(r) && Keyed(t, CronKey(f.entry.name, f.at), j) && t.jobs[j].fnPath != f.entry.workFnPath
    ensures var key := CronKey(f.entry.name, f.at);
            !Carried(r, f) && OneJob(r, key) && forall k :: Keyed(r, key, k) ==> r.jobs[k].fnPath == t.jobs[j].fnPath
  {
    assert Keyed(r, CronKey(f.entry.name, f.at), j);
  }

  /** A run of one step: the app submits a job of its own. */
  lemma SubmitUnder(cals: Calendars, fnPath: string, kind: JobKind, json: Json, key: string, now: int, name: string) returns (tr: Trace)
    ensures Valid(cals, tr) && tr.Then? && tr.before.Empty? && tr.step.Activity? && tr.after.crons == map[]
    ensures Keyed(tr.after.table, key, 0) && tr.after.table.jobs[0].fnPath == fnPath
    ensures AnchorsAhead(cals, tr, name) && Fires(cals, tr, name) == []
  {
    var opts := NO_OPTS.(idempotencyKey := Some(key));
    var t := SchedulerRuns.Submit(Last(Empty).table, fnPath, kind, json, opts, None, now);
    tr := Then(Empty, Activity(SchedulerRuns.Submitting(fnPath, kind, json, opts, None, now)), Store(map[], t));
    assert AnchorsAhead(cals, Empty, name) && Fires(cals, Empty, name) == [];
  }

  lemma OneTarget(t: Table, f: Fire, g: Fire)
    requires KeysUnique(t) && Carried(t, f) && f.entry.name == g.entry.name && f.at == g.at
    requires f.entry.workArgs != g.entry.workArgs
    ensures !Carried(t, g)
  {
  }

  /** Whatever keys the app uses itself, no two jobs have the key of one occurrence. */
  lemma WorkJobsUnique(cals: Calendars, tr: Trace, name: string, at: int, i: JobId, j: JobId)
    requires Valid(cals, tr)
    ensures Keyed(Last(tr).table, CronKey(name, at), i) && Keyed(Last(tr).table, CronKey(name, at), j) ==> i == j
  {
    RunOk(cals, tr);
  }
}
