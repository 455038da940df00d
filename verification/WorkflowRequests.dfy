/**
 What the handler asked for beside name and arguments: how often a step may be attempted, when it is due,
 and how it is undone. Every journal row and job has it from the request, and what a saga undoes is
 what the handler asked to have undone.
 */
module WorkflowRequests {
  import opened Prelude
  import opened Sums
  import opened WorkflowTypes
  import opened WorkflowReplay
  import opened WorkflowMachine
  import opened WorkflowRuns
  import opened WorkflowInvariant
  import opened WorkflowTheorems
  import opened WorkflowLiveness
  import opened WorkflowReports
  import opened WorkflowSaga

  // ---------------------------------------------------------------- what a request asks for

  function AskedUndo(q: Request): Option<string> {
    match q
    case RunMutation(_, _, _, undo) => undo
    case RunAction(_, _, _, undo) => undo
    case _ => None
  }

  function AskedAttempts(q: Request): Option<nat> {
    match q
    case RunMutation(_, _, attempts, _) => attempts
    case RunAction(_, _, attempts, _) => attempts
    case _ => None
  }

  /** When the step is due, if the poll that emitted it read `now`. */
  function AskedTime(q: Request, now: int): Option<int> {
    match q
    case SleepFor(ms) => Some(now + ms)
    case SleepUntil(ts) => Some(ts)
    case _ => None
  }

  /** The row, and its job if it has one, as the request asked. */
  predicate AsAsked(r: Run, i: nat, q: Request, now: int)
    requires i < |r.steps|
  {
    var row := r.steps[i];
    && row.compensateFnPath == AskedUndo(q) && row.maxAttempts == AskedAttempts(q)
    && (row.scheduledJobId.Some? <==> !q.AwaitEvent?)
    && (row.scheduledJobId.Some? ==>
          && row.scheduledJobId.value < |r.jobs|
          && r.jobs[row.scheduledJobId.value].runAt == AskedTime(q, now)
          && r.jobs[row.scheduledJobId.value].maxFailures == AskedAttempts(q))
  }

  // ---------------------------------------------------------------- which request a poll emits next

  /** The steps a replay emits are the direct run's next requests. */
  lemma {:induction false} NextEmitted(h: Handler, journal: seq<StepRow>, pos: nat, now: int, o: Oracle, k: nat)
    requires pos <= |journal| && SettledTo(journal, pos) && ShapeFrom(h, journal, pos) && Consistent(o, journal)
    requires ReplayFrom(h, journal, pos, now).Suspended? && k < |ReplayFrom(h, journal, pos, now).newSteps|
    ensures var q := RequestAt(h, o, |journal| + k, pos);
            q.Some? && ReplayFrom(h, journal, pos, now).newSteps[k] == NewStepFor(q.value, |journal| + k, now)
    decreases |journal| - pos
  {
    SeenIsHistory(o, journal, pos);
    var a := h(Seen(journal, pos));
    if a.Await? && pos + |Wave(a)| <= |journal| && SettledTo(journal, pos + |Wave(a)|) {
      NextEmitted(h, journal, pos + |Wave(a)|, now, o, k);
    }
  }

  /** A freshly dispatched step: its row and its job say what the new step says. */
  predicate Fresh(r: Run, i: nat, ns: NewStep)
    requires i < |r.steps|
  {
    var row := r.steps[i];
    && row.compensateFnPath == ns.opts.compensateFnPath && row.maxAttempts == ns.opts.maxAttempts
    && (row.scheduledJobId.Some? <==> !ns.kind.WaitForEvent?)
    && (row.scheduledJobId.Some? ==>
          && row.scheduledJobId.value < |r.jobs|
          && r.jobs[row.scheduledJobId.value].runAt == ns.opts.runAt
          && r.jobs[row.scheduledJobId.value].maxFailures == ns.opts.maxAttempts)
  }

  lemma {:induction false} StartStepsFresh(r: Run, ns: seq<NewStep>)
    ensures |StartSteps(r, ns).steps| == |r.steps| + |ns|
    ensures forall i :: 0 <= i < |ns| ==> Fresh(StartSteps(r, ns), |r.steps| + i, ns[i])
    decreases |ns|
  {
    if ns != [] {
      var front := ns[..|ns| - 1];
      StartStepsFresh(r, front);
      StartStepsRows(r, front);
      var mid := StartSteps(r, front);
      forall i | 0 <= i < |ns| ensures Fresh(StartStep(mid, ns[|ns| - 1]), |r.steps| + i, ns[i]) {
        assert i < |front| ==> Fresh(mid, |r.steps| + i, front[i]);
      }
    }
  }

  lemma FreshIsAsAsked(r: Run, i: nat, q: Request, n: nat, now: int)
    requires i < |r.steps| && Fresh(r, i, NewStepFor(q, n, now))
    ensures AsAsked(r, i, q, now)
  {
  }

  lemma PollDispatches(h: Handler, maxParallelism: nat, r: Run, now: int)
    requires |Advance(h, maxParallelism, r, now).steps| > |r.steps|
    ensures var out := Replay(h, r.steps, now);
            out.Suspended? && Advance(h, maxParallelism, r, now) == StartSteps(r, Capped(out.newSteps, maxParallelism))
  {
  }

  /** What a poll adds to the journal is what the direct run asks for next, as it asked. */
  lemma PollAsAsked(h: Handler, r: Run, ns: seq<NewStep>, batch: seq<NewStep>, now: int, o: Oracle, i: nat)
    requires Shape(h, r.steps) && Consistent(o, r.steps) && Replay(h, r.steps, now) == Suspended(ns) && batch <= ns
    requires |r.steps| <= i < |r.steps| + |batch|
    ensures var s, q := StartSteps(r, batch), RequestAt(h, o, i, 0);
            i < |s.steps| && q.Some? && AsAsked(s, i, q.value, now)
  {
    StartStepsFresh(r, batch);
    NextEmitted(h, r.steps, 0, now, o, i - |r.steps|);
    BatchAsAsked(r, ns, batch, i - |r.steps|, RequestAt(h, o, i, 0).value, now);
  }

  lemma BatchAsAsked(r: Run, ns: seq<NewStep>, batch: seq<NewStep>, k: nat, q: Request, now: int)
    requires batch <= ns && |r.steps| + k < |StartSteps(r, batch).steps| && k < |ns| && ns[k] == NewStepFor(q, |r.steps| + k, now)
    ensures AsAsked(StartSteps(r, batch), |r.steps| + k, q, now)
  {
    StartStepsFresh(r, batch);
    assert Fresh(StartSteps(r, batch), |r.steps| + k, batch[k]) && batch[k] == ns[k];
    FreshIsAsAsked(StartSteps(r, batch), |r.steps| + k, q, |r.steps| + k, now);
  }

  /** A poll starts the rest of the wave the handler is blocked on, but no more steps than the fan-out cap. */
  lemma PollFanOut(h: Handler, maxParallelism: nat, r: Run, now: int)
    requires Shape(h, r.steps) && r.wf.state.Running?
    requires h(Seen(r.steps, StopsAt(h, r.steps, 0))).Await?
    ensures var stop := StopsAt(h, r.steps, 0);
            var rest := stop + |Wave(h(Seen(r.steps, stop)))| - |r.steps|;
            rest >= 0 && |Advance(h, maxParallelism, r, now).steps| - |r.steps| == if rest <= maxParallelism then rest else maxParallelism
  {
    ReplayOfShape(h, r.steps, 0, now);
    StopIsSuspended(h, r.steps, 0, now);
    var ns := Replay(h, r.steps, now).newSteps;
    StartStepsFresh(r, Capped(ns, maxParallelism));
  }

  /** A handler that waits for a step at the end of the settled waves is blocked. */
  lemma {:induction false} StopIsSuspended(h: Handler, journal: seq<StepRow>, pos: nat, now: int)
    requires pos <= |journal| && SettledTo(journal, pos) && ShapeFrom(h, journal, pos)
    requires h(Seen(journal, StopsAt(h, journal, pos))).Await?
    ensures ReplayFrom(h, journal, pos, now).Suspended?
    ensures ReplayFrom(h, journal, pos, now).newSteps == [] ==> !Settled(journal)
    decreases |journal| - pos
  {
    var a := h(Seen(journal, pos));
    if a.Await? && pos + |Wave(a)| <= |journal| && SettledTo(journal, pos + |Wave(a)|) {
      StopIsSuspended(h, journal, pos + |Wave(a)|, now);
    }
  }

  // ---------------------------------------------------------------- rows and jobs keep it

  /** The columns of a row that no step of a run rewrites. */
  predicate SameRequest(before: StepRow, after: StepRow) {
    && after.name == before.name && after.kind == before.kind && after.args == before.args
    && after.compensateFnPath == before.compensateFnPath && after.maxAttempts == before.maxAttempts
    && after.scheduledJobId == before.scheduledJobId
  }

  lemma StepKeepsRequests(h: Handler, maxParallelism: nat, r: Run, l: Label, i: nat)
    requires i < |r.steps|
    ensures var s := Step(h, maxParallelism, r, l); i < |s.steps| && SameRequest(r.steps[i], s.steps[i])
  {
    if Enabled(r, l) && l.RunJob? && r.jobs[l.job].kind.AdvanceJob? {
      AdvanceKeepsRows(h, maxParallelism, SetPhase(r, l.job, Delivered), l.now, i);
    }
  }

  lemma AdvanceKeepsRows(h: Handler, maxParallelism: nat, r: Run, now: int, i: nat)
    requires i < |r.steps|
    ensures var s := Advance(h, maxParallelism, r, now); i < |s.steps| && s.steps[i] == r.steps[i]
  {
    var out := Replay(h, r.steps, now);
    if r.wf.state.Running? && out.Suspended? {
      StartStepsRows(r, Capped(out.newSteps, maxParallelism));
      var longer := StartSteps(r, Capped(out.newSteps, maxParallelism)).steps;
      assert longer[i] == longer[..|r.steps|][i];
    }
  }

  /** The clock of the poll that journaled row `i`. */
  ghost function EmittedAt(h: Handler, maxParallelism: nat, r0: Run, labels: seq<Label>, i: nat): int {
    if labels == [] then 0
    else
      var front, l := labels[..|labels| - 1], labels[|labels| - 1];
      if i >= |Exec(h, maxParallelism, r0, front).steps| && l.RunJob? then l.now else EmittedAt(h, maxParallelism, r0, front, i)
  }

  lemma PolledAsAsked(h: Handler, maxParallelism: nat, r: Run, now: int, o: Oracle, i: nat)
    requires Shape(h, r.steps) && Consistent(o, r.steps)
    requires |r.steps| <= i < |Advance(h, maxParallelism, r, now).steps|
    ensures var q := RequestAt(h, o, i, 0); q.Some? && AsAsked(Advance(h, maxParallelism, r, now), i, q.value, now)
  {
    PollDispatches(h, maxParallelism, r, now);
    var ns := Replay(h, r.steps, now).newSteps;
    var batch := Capped(ns, maxParallelism);
    assert |StartSteps(r, batch).steps| == |r.steps| + |batch| by {
      StartStepsFresh(r, batch);
    }
    PollAsAsked(h, r, ns, batch, now, o, i);
  }

  lemma StepAsAsked(h: Handler, maxParallelism: nat, r: Run, l: Label, o: Oracle, i: nat, emitted: int)
    requires Inv(h, r) && Enabled(r, l) && maxParallelism >= 1 && Consistent(o, r.steps)
    requires i < |r.steps| ==> RequestAt(h, o, i, 0).Some? && AsAsked(r, i, RequestAt(h, o, i, 0).value, emitted)
    ensures var s, q := Step(h, maxParallelism, r, l), RequestAt(h, o, i, 0);
            i < |s.steps| ==> q.Some? && AsAsked(s, i, q.value, if i >= |r.steps| && l.RunJob? then l.now else emitted)
  {
    var s := Step(h, maxParallelism, r, l);
    if i < |r.steps| {
      StepKeepsRequests(h, maxParallelism, r, l, i);
      StepJobs(h, maxParallelism, r, l);
      if r.steps[i].scheduledJobId.Some? {
        var j := r.steps[i].scheduledJobId.value;
        assert PhaseFollows(r.jobs[j], s.jobs[j], j, l);
      }
    } else if i < |s.steps| {
      OnlyPollsEmit(h, maxParallelism, r, l);
      PolledAsAsked(h, maxParallelism, SetPhase(r, l.job, Delivered), l.now, o, i);
    }
  }

  lemma OnlyPollsEmit(h: Handler, maxParallelism: nat, r: Run, l: Label)
    requires Enabled(r, l) && |Step(h, maxParallelism, r, l).steps| > |r.steps|
    ensures l.RunJob? && r.jobs[l.job].kind.AdvanceJob?
  {
  }

  lemma ConsistentBefore(o: Oracle, before: seq<StepRow>, after: seq<StepRow>)
    requires Consistent(o, after) && Grows(before, after)
    ensures Consistent(o, before)
  {
  }

  /**
   Every row of a run has the undo handler and the attempts of the direct run's request, and its job is
   due when the request asked: at a given time, some time after the poll that emitted it, or at once.
   */
  lemma {:induction false} RequestedOptions(h: Handler, maxParallelism: nat, onComplete: Option<string>, start: int,
                                            labels: seq<Label>, o: Oracle, i: nat)
    requires maxParallelism >= 1 && Consistent(o, Reached(h, maxParallelism, onComplete, start, labels).steps)
    requires i < |Reached(h, maxParallelism, onComplete, start, labels).steps|
    ensures var r, q := Reached(h, maxParallelism, onComplete, start, labels), RequestAt(h, o, i, 0);
            q.Some? && AsAsked(r, i, q.value, EmittedAt(h, maxParallelism, Initial(onComplete, start), labels, i))
  {
    var front, l := labels[..|labels| - 1], labels[|labels| - 1];
    var r := Reached(h, maxParallelism, onComplete, start, front);
    ReachedInv(h, maxParallelism, onComplete, start, front);
    StepGrows(h, maxParallelism, r, l);
    ConsistentBefore(o, r.steps, Step(h, maxParallelism, r, l).steps);
    if i < |r.steps| {
      RequestedOptions(h, maxParallelism, onComplete, start, front, o, i);
    }
    if Enabled(r, l) {
      StepAsAsked(h, maxParallelism, r, l, o, i, EmittedAt(h, maxParallelism, Initial(onComplete, start), front, i));
    }
  }

  // ---------------------------------------------------------------- what a saga undoes

  /** A cancel that asks for compensation took effect. */
  ghost predicate CanceledToUndo(h: Handler, maxParallelism: nat, r0: Run, labels: seq<Label>) {
    labels != [] &&
    var front, l := labels[..|labels| - 1], labels[|labels| - 1];
    CanceledToUndo(h, maxParallelism, r0, front)
    || (l.RequestCancel? && l.compensate && Enabled(Exec(h, maxParallelism, r0, front), l))
  }

  predicate FailedOutright(r: Run) {
    r.wf.state.Failed? && r.wf.error.Some? && !r.wf.error.value.UndoFailed?
  }

  /** A run that failed other than in its unwind owes nothing, nor does one that was canceled with compensation. */
  ghost predicate PaidUp(r: Run, toUndo: bool) {
    && (FailedOutright(r) || (r.wf.state.Canceled? && toUndo) ==> !AnyOwed(r.steps))
    && (r.wf.state.Running? ==> !toUndo)
  }

  /** After the end of a run no row comes to owe a compensation. */
  lemma EndedOwesNoMore(h: Handler, maxParallelism: nat, r: Run, l: Label)
    requires Inv(h, r) && Terminal(r.wf.state) && Enabled(r, l) && !AnyOwed(r.steps)
    ensures !AnyOwed(Step(h, maxParallelism, r, l).steps)
  {
    match l
    case RunJob(j, now) =>
    case DeliverReport(j, now) =>
      assert JobInv(r, j);
      if r.jobs[j].kind.UndoJob? {
        SumBound(r.jobs, TokenWeight(), j);
      }
    case Signal(name, payload) =>
      WaitingHasParked(r, name);
      assert StepInv(r, FindParked(r.steps, name));
      var s := SendEvent(r, name, payload);
      assert forall i :: 0 <= i < |s.steps| && Owed(s.steps[i]) ==> Owed(r.steps[i]);
    case _ =>
  }

  lemma AdvancePaysUp(h: Handler, maxParallelism: nat, r: Run, now: int)
    requires r.wf.state.Running?
    ensures PaidUp(Advance(h, maxParallelism, r, now), false)
  {
    var out := Replay(h, r.steps, now);
    if out.Suspended? {
      StartStepsRows(r, Capped(out.newSteps, maxParallelism));
    }
  }

  lemma UnwindPaysUp(r: Run, now: int, toUndo: bool)
    requires r.wf.state.Compensating?
    ensures PaidUp(Unwind(r, now), toUndo)
  {
  }

  lemma ReportPaysUp(h: Handler, maxParallelism: nat, r: Run, j: nat, now: int, toUndo: bool)
    requires Inv(h, r) && PaidUp(r, toUndo) && !Terminal(r.wf.state) && Enabled(r, DeliverReport(j, now))
    ensures PaidUp(Step(h, maxParallelism, r, DeliverReport(j, now)), toUndo)
  {
    assert JobInv(r, j);
  }

  lemma GoingOnPaysUp(h: Handler, maxParallelism: nat, r: Run, l: Label, toUndo: bool)
    requires Inv(h, r) && PaidUp(r, toUndo) && !Terminal(r.wf.state) && Enabled(r, l)
    ensures PaidUp(Step(h, maxParallelism, r, l), toUndo || (l.RequestCancel? && l.compensate))
  {
    match l
    case RunJob(j, now) =>
      var done := SetPhase(r, j, Delivered);
      if r.wf.state.Running? {
        AdvancePaysUp(h, maxParallelism, done, now);
      } else {
        UnwindPaysUp(done, now, toUndo);
      }
    case DeliverReport(j, now) => ReportPaysUp(h, maxParallelism, r, j, now, toUndo);
    case _ =>
  }

  lemma {:induction false} EndedPaidUp(h: Handler, maxParallelism: nat, onComplete: Option<string>, start: int, labels: seq<Label>)
    requires maxParallelism >= 1
    ensures PaidUp(Reached(h, maxParallelism, onComplete, start, labels),
                   CanceledToUndo(h, maxParallelism, Initial(onComplete, start), labels))
  {
    if labels != [] {
      var front, l := labels[..|labels| - 1], labels[|labels| - 1];
      var r := Reached(h, maxParallelism, onComplete, start, front);
      ReachedInv(h, maxParallelism, onComplete, start, front);
      EndedPaidUp(h, maxParallelism, onComplete, start, front);
      if Enabled(r, l) {
        if Terminal(r.wf.state) {
          TerminalIsFinal(h, maxParallelism, r, l);
          if !AnyOwed(r.steps) {
            EndedOwesNoMore(h, maxParallelism, r, l);
          }
        } else {
          GoingOnPaysUp(h, maxParallelism, r, l, CanceledToUndo(h, maxParallelism, Initial(onComplete, start), front));
        }
      }
    }
  }

  /** Step `i` was reported a success, and its request named a compensation. */
  ghost predicate ToUndo(q: Option<Request>, heard: Option<Outcome>) {
    && heard.Some? && heard.value.Resolved? && q.Some?
    && AskedUndo(q.value).Some? && AskedUndo(q.value).value != ""
  }

  /** A compensation job for step `i`: the undo its request named, with the request's arguments and the step's result. */
  ghost predicate UndoneAsAsked(r: Run, i: nat, q: Request, result: Json) {
    exists j :: 0 <= j < |r.jobs| && UndoneBy(r.jobs[j], i, q, result)
  }

  predicate UndoneBy(job: Job, i: nat, q: Request, result: Json) {
    && job.kind.UndoJob? && job.kind.step == i && AskedUndo(q) == Some(job.fnPath)
    && job.args == UndoArgs(ArgsOf(q), result) && job.maxFailures == AskedAttempts(q)
  }

  lemma UndoableAsAsked(r: Run, i: nat, q: Request, now: int, heard: Option<Outcome>)
    requires i < |r.steps| && AsAsked(r, i, q, now) && Tells(r.steps[i].state, heard)
    ensures Undoable(r.steps[i]) <==> ToUndo(Some(q), heard)
  {
  }

  lemma DispatchedAsAsked(r: Run, i: nat, q: Request, now: int, heard: Option<Outcome>)
    requires Core(r) && i < |r.steps| && AsAsked(r, i, q, now) && Matches(r.steps[i], q) && Tells(r.steps[i].state, heard)
    requires i in UndoSteps(r.jobs)
    ensures ToUndo(Some(q), heard) && UndoneAsAsked(r, i, q, heard.value.value)
  {
    UndoneIsDispatched(r, i);
    UndoableAsAsked(r, i, q, now, heard);
    assert StepInv(r, i);
    assert UndoneBy(r.jobs[r.steps[i].compensationJobId.value], i, q, heard.value.value);
  }

  /**
   A saga undoes what the handler asked to have undone. A compensation is only ever dispatched for a step
   that was reported a success and whose request named an undo, and then that undo with the request's
   arguments and the reported result. Once a run has failed without a compensation failing, or was
   canceled with compensation and none failed, these are exactly the steps that were compensated.
   */
  lemma CompensatesWhatWasAsked(h: Handler, maxParallelism: nat, onComplete: Option<string>, start: int,
                                labels: seq<Label>, o: Oracle, i: nat)
    requires maxParallelism >= 1 && Agrees(h, maxParallelism, onComplete, start, labels, o)
    ensures var r, r0 := Reached(h, maxParallelism, onComplete, start, labels), Initial(onComplete, start);
            var q, heard := RequestAt(h, o, i, 0), Heard(h, maxParallelism, r0, labels, i);
            && (i in UndoSteps(r.jobs) ==> ToUndo(q, heard) && UndoneAsAsked(r, i, q.value, heard.value.value))
            && (FailedOutright(r) || (r.wf.state.Canceled? && CanceledToUndo(h, maxParallelism, r0, labels)) ==>
                  (i in UndoSteps(r.jobs) <==> i < |r.steps| && ToUndo(q, heard)))
  {
    var r := Reached(h, maxParallelism, onComplete, start, labels);
    ReachedInv(h, maxParallelism, onComplete, start, labels);
    AgreesIsConsistent(h, maxParallelism, onComplete, start, labels, o);
    EndedPaidUp(h, maxParallelism, onComplete, start, labels);
    DispatchedInOrder(r);
    if i < |r.steps| {
      RequestedOptions(h, maxParallelism, onComplete, start, labels, o, i);
      JournalShape(h, maxParallelism, onComplete, start, labels, o, 0);
      RowsTell(h, maxParallelism, onComplete, start, labels, i);
      OneCompensation(r, i, RequestAt(h, o, i, 0).value, EmittedAt(h, maxParallelism, Initial(onComplete, start), labels, i),
                      Heard(h, maxParallelism, Initial(onComplete, start), labels, i));
    }
  }

  lemma OneCompensation(r: Run, i: nat, q: Request, now: int, heard: Option<Outcome>)
    requires Core(r) && i < |r.steps| && AsAsked(r, i, q, now) && Matches(r.steps[i], q) && Tells(r.steps[i].state, heard)
    ensures i in UndoSteps(r.jobs) ==> ToUndo(Some(q), heard) && UndoneAsAsked(r, i, q, heard.value.value)
    ensures !AnyOwed(r.steps) && ToUndo(Some(q), heard) ==> i in UndoSteps(r.jobs)
  {
    UndoableAsAsked(r, i, q, now, heard);
    if i in UndoSteps(r.jobs) {
      DispatchedAsAsked(r, i, q, now, heard);
    }
    if !AnyOwed(r.steps) && ToUndo(Some(q), heard) {
      NothingOwed(r);
      DescendingDecreases(r.steps, |r.steps|);
    }
  }
}
